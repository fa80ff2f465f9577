/**
 String operations the plugin takes from Go's `strings` and `filepath` packages.
 A `string` stands for a byte string, one `char` per byte; letter case and
 white space are the ASCII ones.
 */
module Text {

  datatype Option<+T> = None | Some(value: T) {
    function GetOr(default: T): T {
      match this
      case Some(v) => v
      case None => default
    }
  }

  const SPACES: set<char> := {' ', '\t', '\n', '\r', 11 as char, 12 as char}

  function TrimLeft(s: string, cut: set<char>): string {
    if s != "" && s[0] in cut then TrimLeft(s[1..], cut) else s
  }

  function TrimRight(s: string, cut: set<char>): string {
    if s != "" && s[|s| - 1] in cut then TrimRight(s[..|s| - 1], cut) else s
  }

  /** `strings.Trim`: drops the leading and trailing characters of `cut`. */
  function Trim(s: string, cut: set<char>): string {
    TrimRight(TrimLeft(s, cut), cut)
  }

  lemma {:induction false} TrimLeftIsSuffix(s: string, cut: set<char>)
    ensures var r := TrimLeft(s, cut);
            |r| <= |s| && r == s[|s| - |r|..] && (r == "" || r[0] !in cut)
            && forall i | 0 <= i < |s| - |r| :: s[i] in cut
  {
    if s != "" && s[0] in cut {
      TrimLeftIsSuffix(s[1..], cut);
      var r := TrimLeft(s[1..], cut);
      assert TrimLeft(s, cut) == r;
      assert s[1..][|s| - 1 - |r|..] == s[|s| - |r|..];
      assert forall i | 1 <= i < |s| - |r| :: s[i] == s[1..][i - 1];
    }
  }

  lemma {:induction false} TrimRightIsPrefix(s: string, cut: set<char>)
    ensures var r := TrimRight(s, cut);
            |r| <= |s| && r == s[..|r|] && (r == "" || r[|r| - 1] !in cut)
            && forall i | |r| <= i < |s| :: s[i] in cut
  {
    if s != "" && s[|s| - 1] in cut {
      TrimRightIsPrefix(s[..|s| - 1], cut);
    }
  }

  /** A trimmed string is a slice of the original whose ends are not in the cut set. */
  lemma TrimIsSlice(s: string, cut: set<char>) returns (from: nat)
    ensures var r := Trim(s, cut);
            && from + |r| <= |s| && r == s[from..from + |r|]
            && (r == "" || (r[0] !in cut && r[|r| - 1] !in cut))
            && (forall i | 0 <= i < from :: s[i] in cut) && (forall i | from + |r| <= i < |s| :: s[i] in cut)
  {
    TrimLeftIsSuffix(s, cut);
    TrimRightIsPrefix(TrimLeft(s, cut), cut);
    from := |s| - |TrimLeft(s, cut)|;
    assert forall i | from + |Trim(s, cut)| <= i < |s| :: s[i] == TrimLeft(s, cut)[i - from];
  }

  lemma TrimFixed(s: string, cut: set<char>)
    requires s == "" || (s[0] !in cut && s[|s| - 1] !in cut)
    ensures Trim(s, cut) == s
  {
  }

  function TrimSpace(s: string): string {
    Trim(s, SPACES)
  }

  function LowerChar(c: char): char {
    if 'A' <= c <= 'Z' then c - 'A' + 'a' else c
  }

  function Lower(s: string): (r: string)
    ensures |r| == |s|
    ensures forall i | 0 <= i < |s| :: r[i] == LowerChar(s[i])
  {
    seq(|s|, i requires 0 <= i < |s| => LowerChar(s[i]))
  }

  predicate EqualFold(a: string, b: string) {
    Lower(a) == Lower(b)
  }

  predicate HasSuffix(s: string, suffix: string) {
    |suffix| <= |s| && s[|s| - |suffix|..] == suffix
  }

  /** `filepath.Base` on a slash-separated path. */
  function Base(path: string): string {
    if path == "" then "."
    else
      var stripped := TrimRight(path, {'/'});
      if stripped == "" then "/" else AfterLastSlash(stripped)
  }

  function AfterLastSlash(s: string): (r: string)
    ensures |r| <= |s| && r == s[|s| - |r|..]
    ensures '/' !in r
    ensures |r| < |s| ==> s[|s| - |r| - 1] == '/'
  {
    if s == "" || s[|s| - 1] == '/' then ""
    else
      var front := AfterLastSlash(s[..|s| - 1]);
      front + [s[|s| - 1]]
  }

  /** A name is its own base exactly when it has no slash, apart from the root. */
  lemma BaseIsName(name: string)
    ensures Base(name) == name <==> name == "/" || (name != "" && '/' !in name)
  {
    var stripped := TrimRight(name, {'/'});
    TrimRightIsPrefix(name, {'/'});
    if name != "" && '/' !in name {
      assert stripped == name;
      var r := AfterLastSlash(name);
      assert |r| == |name|;
    } else if name != "" && name != "/" {
      if stripped == "" {
        assert name[0] in {'/'};
      } else {
        assert '/' !in AfterLastSlash(stripped);
      }
    }
  }

  lemma LowerIdempotent(s: string)
    ensures Lower(Lower(s)) == Lower(s)
  {
  }

  /** A cut set that does not tell upper case from lower case. */
  ghost predicate Caseless(cut: set<char>) {
    forall c: char :: c in cut <==> LowerChar(c) in cut
  }

  lemma SpacesCaseless()
    ensures Caseless(SPACES)
  {
  }

  lemma {:induction false} TrimLeftLower(s: string, cut: set<char>)
    requires Caseless(cut)
    ensures TrimLeft(Lower(s), cut) == Lower(TrimLeft(s, cut))
  {
    if s != "" && s[0] in cut {
      assert Lower(s)[1..] == Lower(s[1..]);
      TrimLeftLower(s[1..], cut);
    }
  }

  lemma {:induction false} TrimRightLower(s: string, cut: set<char>)
    requires Caseless(cut)
    ensures TrimRight(Lower(s), cut) == Lower(TrimRight(s, cut))
  {
    if s != "" && s[|s| - 1] in cut {
      assert Lower(s)[..|s| - 1] == Lower(s[..|s| - 1]);
      TrimRightLower(s[..|s| - 1], cut);
    }
  }

  /** Trimming white space and lowering commute. */
  lemma TrimSpaceLower(s: string)
    ensures TrimSpace(Lower(s)) == Lower(TrimSpace(s))
  {
    SpacesCaseless();
    TrimLower(s, SPACES);
  }

  lemma TrimLower(s: string, cut: set<char>)
    requires Caseless(cut)
    ensures Trim(Lower(s), cut) == Lower(Trim(s, cut))
  {
    TrimLeftLower(s, cut);
    TrimRightLower(TrimLeft(s, cut), cut);
  }

  lemma TrimSpaceIdempotent(s: string)
    ensures TrimSpace(TrimSpace(s)) == TrimSpace(s)
  {
    var _ := TrimIsSlice(s, SPACES);
    TrimFixed(TrimSpace(s), SPACES);
  }

  lemma TrimSpaceShortens(s: string)
    ensures |TrimSpace(s)| <= |s|
  {
    var _ := TrimIsSlice(s, SPACES);
  }
}
