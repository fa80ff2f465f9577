/** The plugin's file names: how one is written and which names it recognises. */
module OwnedNames {
  import opened Text
  import opened Platform
  import opened Principal

  const FILE_PREFIX := "codex-pat-"
  const JSON_SUFFIX := ".json"
  const MAX_EMAIL_SEGMENT := 96
  const MAX_PLAN_SEGMENT := 48
  const MAX_READABLE_SUFFIX := MAX_EMAIL_SEGMENT + 1 + MAX_PLAN_SEGMENT

  const EMAIL_EXTRA: set<char> := {'@', '.', '_', '+'}
  const EDGE: set<char> := {'-', '@', '.', '_', '+'}

  predicate IsAlphaNumeric(c: char) {
    'a' <= c <= 'z' || '0' <= c <= '9'
  }

  predicate Allowed(c: char, extra: set<char>) {
    IsAlphaNumeric(c) || c in extra
  }

  /** Every run of characters that are not allowed, between two that are, becomes one hyphen. */
  function Collapse(value: string, extra: set<char>): string {
    if value == "" then ""
    else
      var front, last := value[..|value| - 1], value[|value| - 1];
      var text := Collapse(front, extra);
      if !Allowed(last, extra) then text
      else if text != "" && !Allowed(front[|front| - 1], extra) then text + "-" + [last]
      else text + [last]
  }

  /** The segment for `value`: collapsed, cut at `limit` bytes, and stripped of edge punctuation. */
  function Segment(value: string, extra: set<char>, limit: int): string {
    if limit <= 0 then ""
    else
      var text := Collapse(Lower(TrimSpace(value)), extra);
      Trim(if |text| <= limit then text else text[..limit], EDGE)
  }

  method SanitizeFileSegment(rawValue: string, extra: set<char>, limit: int) returns (segment: string)
    ensures segment == Segment(rawValue, extra, limit)
  {
    CollapseNothing(extra);
    TrimFixed("", EDGE);
    hide Lower, TrimSpace, Trim, Collapse;
    var value := Lower(TrimSpace(rawValue));
    if value == "" || limit <= 0 {
      return "";
    }
    var builder := BuildSegment(value, extra, limit);
    CutTrimsAlike(builder, Collapse(value, extra), limit);
    segment := Trim(builder, EDGE);
  }

  /** `builder` is `full`, or as much of it as fits without ending in the hyphen before a character that does not. */
  ghost predicate IsCutOf(builder: string, full: string, limit: nat) {
    && builder <= full && |builder| <= limit
    && (builder == full || |builder| == limit || (|builder| == limit - 1 && full[|builder|] == '-'))
  }

  /** The loop of `sanitizeFileSegment`, over the lowered and trimmed value. */
  method BuildSegment(value: string, extra: set<char>, limit: nat) returns (builder: string)
    ensures IsCutOf(builder, Collapse(value, extra), limit)
  {
    CollapseNothing(extra);
    hide Allowed, Collapse;
    builder := "";
    var pendingSeparator := false;
    assert value[..0] == "";
    for i := 0 to |value|
      invariant builder == Collapse(value[..i], extra) && |builder| <= limit
      invariant pendingSeparator <==> i > 0 && !Allowed(value[i - 1], extra) && builder != ""
    {
      var character := value[i];
      CollapseNext(value, i, extra);
      CollapseGrows(value, i + 1, extra);
      if !Allowed(character, extra) {
        pendingSeparator := |builder| > 0;
        continue;
      }
      if pendingSeparator {
        if |builder| + 2 > limit {
          PrefixOf(builder, "-" + [character], Collapse(value, extra));
          return;
        }
        builder := builder + "-";
        pendingSeparator := false;
      }
      if |builder| + 1 > limit {
        PrefixOf(builder, [character], Collapse(value, extra));
        return;
      }
      builder := builder + [character];
    }
    assert value[..|value|] == value;
  }

  lemma PrefixOf(a: string, b: string, full: string)
    requires b != "" && a + b <= full
    ensures a <= full && full[|a|] == b[0]
  {
    assert full[|a|] == (a + b)[|a|];
  }

  lemma CutTrimsAlike(builder: string, full: string, limit: nat)
    requires IsCutOf(builder, full, limit)
    ensures Trim(builder, EDGE) == Trim(if |full| <= limit then full else full[..limit], EDGE)
  {
    hide Trim;
    var cut := if |full| <= limit then full else full[..limit];
    if cut != builder {
      assert cut == builder + "-";
      TrimDropsHyphen(builder);
    }
  }

  lemma CollapseNothing(extra: set<char>)
    ensures Collapse("", extra) == ""
  {
  }

  /** What one more character adds. */
  lemma CollapseNext(value: string, i: nat, extra: set<char>)
    requires i < |value|
    ensures Collapse(value[..i + 1], extra)
         == var text := Collapse(value[..i], extra);
            if !Allowed(value[i], extra) then text
            else if text != "" && !Allowed(value[i - 1], extra) then text + "-" + [value[i]]
            else text + [value[i]]
  {
    hide Allowed;
    assert value[..i + 1][..i] == value[..i];
  }

  lemma {:induction false} CollapseGrows(value: string, i: nat, extra: set<char>)
    requires i <= |value|
    ensures Collapse(value[..i], extra) <= Collapse(value, extra)
    decreases |value|
  {
    if i == |value| {
      assert value[..i] == value;
    } else {
      var front := value[..|value| - 1];
      assert front[..i] == value[..i];
      CollapseGrows(front, i, extra);
    }
  }

  lemma TrimDropsHyphen(text: string)
    ensures Trim(text + "-", EDGE) == Trim(text, EDGE)
  {
    TrimLeftAppend(text, '-', EDGE);
    if TrimLeft(text, EDGE) != "" {
      var left := TrimLeft(text, EDGE);
      assert (left + "-")[..|left|] == left;
    }
  }

  lemma {:induction false} TrimLeftAppend(text: string, c: char, cut: set<char>)
    requires c in cut
    ensures TrimLeft(text + [c], cut) == if TrimLeft(text, cut) == "" then "" else TrimLeft(text, cut) + [c]
  {
    if text == "" {
      assert TrimLeft([c][1..], cut) == "";
    } else {
      assert (text + [c])[1..] == text[1..] + [c];
      if text[0] in cut {
        TrimLeftAppend(text[1..], c, cut);
      }
    }
  }

  // ---------- normal form ----------

  predicate NoDoubleHyphen(s: string) {
    forall i | 0 <= i < |s| - 1 :: !(s[i] == '-' && s[i + 1] == '-')
  }

  predicate OverAlphabet(s: string, extra: set<char>) {
    forall i | 0 <= i < |s| :: s[i] == '-' || Allowed(s[i], extra)
  }

  /** What a segment may look like. */
  predicate NormalSegment(s: string, extra: set<char>, limit: int) {
    && (s == "" || (IsAlphaNumeric(s[0]) && IsAlphaNumeric(s[|s| - 1]) && |s| <= limit))
    && NoDoubleHyphen(s)
    && OverAlphabet(s, extra)
  }

  lemma {:induction false} CollapseShape(value: string, extra: set<char>)
    requires extra <= EMAIL_EXTRA
    ensures var text := Collapse(value, extra);
            && NoDoubleHyphen(text) && OverAlphabet(text, extra)
            && (text != "" ==> text[0] != '-' && text[|text| - 1] != '-')
  {
    if value != "" {
      CollapseShape(value[..|value| - 1], extra);
    }
  }

  lemma SliceKeepsShape(s: string, from: nat, to: nat, extra: set<char>)
    requires from <= to <= |s| && NoDoubleHyphen(s) && OverAlphabet(s, extra)
    ensures NoDoubleHyphen(s[from..to]) && OverAlphabet(s[from..to], extra)
  {
  }

  /** Every segment is in normal form. */
  lemma SegmentIsNormal(value: string, extra: set<char>, limit: int)
    requires extra <= EMAIL_EXTRA
    ensures NormalSegment(Segment(value, extra, limit), extra, limit)
  {
    hide Collapse, Lower, TrimSpace, Trim;
    if limit > 0 {
      var text := Collapse(Lower(TrimSpace(value)), extra);
      CollapseShape(Lower(TrimSpace(value)), extra);
      var cut := if |text| <= limit then text else text[..limit];
      var from := TrimIsSlice(cut, EDGE);
      SliceKeepsShape(cut, from, from + |Trim(cut, EDGE)|, extra);
    }
  }

  lemma {:induction false} CollapseOfNormal(s: string, extra: set<char>)
    requires extra <= EMAIL_EXTRA
    requires NoDoubleHyphen(s) && OverAlphabet(s, extra) && (s != "" ==> s[0] != '-')
    ensures Collapse(s, extra) == if s != "" && s[|s| - 1] == '-' then s[..|s| - 1] else s
  {
    if s != "" {
      var front := s[..|s| - 1];
      CollapseOfNormal(front, extra);
      if front != "" && front[|front| - 1] == '-' {
        assert s[|s| - 2] == '-' && s[|s| - 1] != '-';
        assert front == front[..|front| - 1] + "-";
      }
    }
  }

  /** The segments are exactly the strings the sanitiser leaves alone. */
  lemma SegmentFixesExactlyNormal(s: string, extra: set<char>, limit: int)
    requires extra <= EMAIL_EXTRA
    ensures Segment(s, extra, limit) == s <==> NormalSegment(s, extra, limit)
  {
    SegmentIsNormal(s, extra, limit);
    if NormalSegment(s, extra, limit) && s != "" {
      TrimFixed(s, SPACES);
      TrimFixed(s, EDGE);
      NormalIsLower(s, extra);
      CollapseOfNormal(s, extra);
    }
  }

  lemma NormalIsLower(s: string, extra: set<char>)
    requires extra <= EMAIL_EXTRA && OverAlphabet(s, extra)
    ensures Lower(s) == s
  {
  }

  lemma SegmentIdempotent(value: string, extra: set<char>, limit: int)
    requires extra <= EMAIL_EXTRA
    ensures Segment(Segment(value, extra, limit), extra, limit) == Segment(value, extra, limit)
  {
    SegmentIsNormal(value, extra, limit);
    SegmentFixesExactlyNormal(Segment(value, extra, limit), extra, limit);
  }

  function Keep(s: string, extra: set<char>): string {
    if s == "" then "" else Keep(s[..|s| - 1], extra) + if Allowed(s[|s| - 1], extra) then [s[|s| - 1]] else ""
  }

  /** Collapsing loses nothing but the characters that are not allowed, and reorders nothing. */
  lemma {:induction false} CollapseKeepsAllowed(value: string, extra: set<char>)
    requires extra <= EMAIL_EXTRA
    ensures Keep(Collapse(value, extra), extra) == Keep(value, extra)
  {
    if value != "" {
      var front, last := value[..|value| - 1], value[|value| - 1];
      CollapseKeepsAllowed(front, extra);
      if Allowed(last, extra) {
        var text := Collapse(front, extra);
        assert (text + "-" + [last])[..|text| + 1] == text + "-";
        assert (text + "-")[..|text|] == text;
        assert (text + [last])[..|text|] == text;
      }
    }
  }

  /** A segment is cut from the collapsed text and then loses nothing but edge punctuation. */
  lemma SegmentDropsOnlyEdges(value: string, extra: set<char>, limit: nat) returns (from: nat)
    requires limit > 0
    ensures var text, segment := Collapse(Lower(TrimSpace(value)), extra), Segment(value, extra, limit);
            var cut := if |text| <= limit then |text| else limit;
            && from + |segment| <= cut && segment == text[from..from + |segment|]
            && (forall i | 0 <= i < from :: text[i] in EDGE)
            && (forall i | from + |segment| <= i < cut :: text[i] in EDGE)
  {
    hide Collapse, TrimSpace, Lower, Trim;
    var text := Collapse(Lower(TrimSpace(value)), extra);
    from := TrimIsSlice(if |text| <= limit then text else text[..limit], EDGE);
  }

  // ---------- printing and recognising ----------

  function FileName(accountID: string, userID: string, email: string, planType: string): string {
    var emailSegment := Segment(email, EMAIL_EXTRA, MAX_EMAIL_SEGMENT);
    var planSegment := Segment(planType, {}, MAX_PLAN_SEGMENT);
    FILE_PREFIX + PrincipalHash(accountID, userID)
    + (if emailSegment != "" then "-" + emailSegment else "")
    + (if planSegment != "" then "-" + planSegment else "")
    + JSON_SUFFIX
  }

  predicate HasSeparator(name: string) {
    '/' in name || '\\' in name
  }

  /** The hash in a plugin-owned file name, or `None` for any other name. */
  function ParseOwnedFile(rawName: string): Option<string> {
    var trimmed := TrimSpace(rawName);
    if trimmed == "" || Base(trimmed) != trimmed || HasSeparator(trimmed) then None
    else
      var name := Lower(trimmed);
      if !(FILE_PREFIX <= name) || !HasSuffix(name, JSON_SUFFIX) then None
      else ParseStem(TrimAffixes(name))
  }

  /** `TrimPrefix` then `TrimSuffix`; the affixes may overlap in a short name. */
  function TrimAffixes(name: string): string
    requires FILE_PREFIX <= name
  {
    var rest := name[|FILE_PREFIX|..];
    if HasSuffix(rest, JSON_SUFFIX) then rest[..|rest| - |JSON_SUFFIX|] else rest
  }

  function ParseStem(stem: string): Option<string> {
    if |stem| < HASH_LENGTH || !IsHex(stem[..HASH_LENGTH]) then None
    else
      var suffix := stem[HASH_LENGTH..];
      if suffix == "" then Some(stem[..HASH_LENGTH])
      else if |suffix| < 2 || suffix[0] != '-' || |suffix| - 1 > MAX_READABLE_SUFFIX then None
      else if IsReadable(suffix[1..]) then Some(stem[..HASH_LENGTH])
      else None
  }

  predicate IsReadable(human: string)
    requires human != ""
  {
    && IsAlphaNumeric(human[0]) && IsAlphaNumeric(human[|human| - 1])
    && forall i | 0 <= i < |human| :: IsAlphaNumeric(human[i]) || human[i] in EDGE
  }

  predicate IsOwnedFile(name: string) {
    ParseOwnedFile(name).Some?
  }

  predicate IsOwnedFileForPrincipal(name: string, accountID: string, userID: string) {
    && ParseOwnedFile(name).Some?
    && TrimSpace(accountID) != ""
    && TrimSpace(userID) != ""
    && ParseOwnedFile(name).value == PrincipalHash(TrimSpace(accountID), TrimSpace(userID))
  }

  predicate IsSafeAuthFileName(rawName: string) {
    var name := TrimSpace(rawName);
    name != "" && Base(name) == name && !HasSeparator(name) && HasSuffix(Lower(name), JSON_SUFFIX)
  }

  /** The part of a canonical name between the prefix and `.json`. */
  function Stem(accountID: string, userID: string, email: string, planType: string): string {
    var name := FileName(accountID, userID, email, planType);
    name[|FILE_PREFIX|..|name| - |JSON_SUFFIX|]
  }

  predicate FileNameAlphabet(s: string) {
    forall i | 0 <= i < |s| :: IsAlphaNumeric(s[i]) || s[i] in EDGE
  }

  /** The readable part of a plugin-owned name: nothing, or a hyphen and up to 145 readable bytes. */
  predicate SuffixOk(suffix: string) {
    suffix == "" || (2 <= |suffix| <= MAX_READABLE_SUFFIX + 1 && suffix[0] == '-' && IsReadable(suffix[1..]))
  }

  lemma FileNameShape(accountID: string, userID: string, email: string, planType: string)
    ensures var name, hash := FileName(accountID, userID, email, planType), PrincipalHash(accountID, userID);
            var suffix := Stem(accountID, userID, email, planType)[HASH_LENGTH..];
            && name == FILE_PREFIX + hash + suffix + JSON_SUFFIX
            && |name| <= 185
            && FileNameAlphabet(name)
            && SuffixOk(suffix)
  {
    hide Segment, PrincipalHash, IsHex, IsReadable, NormalSegment, FileNameAlphabet;
    var name, hash := FileName(accountID, userID, email, planType), PrincipalHash(accountID, userID);
    var emailSegment := Segment(email, EMAIL_EXTRA, MAX_EMAIL_SEGMENT);
    var planSegment := Segment(planType, {}, MAX_PLAN_SEGMENT);
    SegmentIsNormal(email, EMAIL_EXTRA, MAX_EMAIL_SEGMENT);
    SegmentIsNormal(planType, {}, MAX_PLAN_SEGMENT);
    var e := if emailSegment != "" then "-" + emailSegment else "";
    var p := if planSegment != "" then "-" + planSegment else "";
    SuffixShape(emailSegment, planSegment);
    HexIsReadable(hash);
    assert name == FILE_PREFIX + hash + (e + p) + JSON_SUFFIX;
    MiddleOf(hash, e + p);
    assert Stem(accountID, userID, email, planType) == hash + (e + p);
    GrammarAlphabet(hash, e + p);
  }

  lemma MiddleOf(hash: string, suffix: string)
    ensures var name := FILE_PREFIX + hash + suffix + JSON_SUFFIX;
            name[|FILE_PREFIX|..|name| - |JSON_SUFFIX|] == hash + suffix
  {
  }

  lemma HexIsReadable(hash: string)
    requires IsHex(hash)
    ensures |hash| == HASH_LENGTH && FileNameAlphabet(hash)
  {
  }

  lemma SuffixShape(emailSegment: string, planSegment: string)
    requires NormalSegment(emailSegment, EMAIL_EXTRA, MAX_EMAIL_SEGMENT)
    requires NormalSegment(planSegment, {}, MAX_PLAN_SEGMENT)
    ensures var e := if emailSegment != "" then "-" + emailSegment else "";
            var p := if planSegment != "" then "-" + planSegment else "";
            SuffixOk(e + p)
  {
  }

  /** Recognition ignores letter case. */
  lemma RecognitionIgnoresCase(name: string, name': string)
    requires EqualFold(name, name')
    ensures ParseOwnedFile(name) == ParseOwnedFile(name')
  {
    RecognitionOfLower(name);
    RecognitionOfLower(name');
  }

  lemma RecognitionOfLower(name: string)
    ensures ParseOwnedFile(name) == ParseOwnedFile(Lower(name))
  {
    TrimSpaceLower(name);
    var trimmed := TrimSpace(name);
    LowerIdempotent(trimmed);
    LowerSeparators(trimmed);
    BaseIsName(trimmed);
    BaseIsName(Lower(trimmed));
  }

  lemma LowerSeparators(s: string)
    ensures '/' in Lower(s) <==> '/' in s
    ensures '\\' in Lower(s) <==> '\\' in s
  {
    forall c | c in {'/', '\\'}
      ensures c in Lower(s) <==> c in s
    {
      if c in s {
        var i :| 0 <= i < |s| && s[i] == c;
        assert Lower(s)[i] == c;
      }
      if c in Lower(s) {
        var i :| 0 <= i < |s| && Lower(s)[i] == c;
        assert s[i] == c;
      }
    }
  }

  /** Every name the plugin prints is recognised, in any letter case, with exactly its principal's hash. */
  lemma PrintedNameIsRecognised(accountID: string, userID: string, email: string, planType: string, name: string)
    requires EqualFold(name, FileName(accountID, userID, email, planType))
    ensures ParseOwnedFile(name) == Some(PrincipalHash(accountID, userID))
    ensures IsSafeAuthFileName(name) && |name| <= 185
  {
    var printed := FileName(accountID, userID, email, planType);
    FileNameShape(accountID, userID, email, planType);
    PrintedNameParses(accountID, userID, email, planType);
    RecognitionIgnoresCase(name, printed);
    CanonicalIsLower(accountID, userID, email, planType);
    TrimSpaceLower(name);
  }

  lemma CanonicalIsLower(accountID: string, userID: string, email: string, planType: string)
    ensures var name := FileName(accountID, userID, email, planType);
            Lower(name) == name && TrimSpace(name) == name && HasSuffix(name, JSON_SUFFIX)
  {
    FileNameShape(accountID, userID, email, planType);
    AlphabetIsLower(FileName(accountID, userID, email, planType));
  }

  lemma AlphabetIsLower(name: string)
    requires FileNameAlphabet(name)
    ensures Lower(name) == name && TrimSpace(name) == name && !HasSeparator(name)
  {
    forall i | 0 <= i < |name|
      ensures LowerChar(name[i]) == name[i] && name[i] !in SPACES && name[i] != '/' && name[i] != '\\'
    {
    }
    TrimFixed(name, SPACES);
  }

  lemma PrintedNameParses(accountID: string, userID: string, email: string, planType: string)
    ensures ParseOwnedFile(FileName(accountID, userID, email, planType)) == Some(PrincipalHash(accountID, userID))
  {
    var name := FileName(accountID, userID, email, planType);
    var hash := PrincipalHash(accountID, userID);
    FileNameShape(accountID, userID, email, planType);
    AlphabetIsLower(name);
    BaseIsName(name);
    AffixesOf(hash, Stem(accountID, userID, email, planType)[HASH_LENGTH..]);
  }

  lemma AffixesOf(hash: string, suffix: string)
    requires IsHex(hash)
    ensures var name := FILE_PREFIX + hash + suffix + JSON_SUFFIX;
            && FILE_PREFIX <= name && HasSuffix(name, JSON_SUFFIX) && TrimAffixes(name) == hash + suffix
            && (hash + suffix)[..HASH_LENGTH] == hash && (hash + suffix)[HASH_LENGTH..] == suffix
  {
    var name := FILE_PREFIX + hash + suffix + JSON_SUFFIX;
    assert name[|FILE_PREFIX|..] == hash + suffix + JSON_SUFFIX;
  }

  /** The canonical name of a principal with both identifiers is bound to that principal. */
  lemma CanonicalNameIsBound(accountID: string, userID: string, email: string, planType: string)
    requires TrimSpace(accountID) != "" && TrimSpace(userID) != ""
    ensures IsOwnedFileForPrincipal(FileName(accountID, userID, email, planType), accountID, userID)
  {
    PrintedNameParses(accountID, userID, email, planType);
    TrimSpaceIdempotent(accountID);
    TrimSpaceIdempotent(userID);
  }

  /** Nothing, or a hyphen and up to 145 bytes that begin and end alphanumeric. */
  predicate ReadableSuffix(suffix: string) {
    suffix == ""
    || (&& 2 <= |suffix| <= 146 && suffix[0] == '-' && suffix[1] !in "-@._+" && suffix[|suffix| - 1] !in "-@._+"
        && forall i | 1 <= i < |suffix| :: 'a' <= suffix[i] <= 'z' || '0' <= suffix[i] <= '9' || suffix[i] in "-@._+")
  }

  lemma SuffixesInPlain()
    ensures forall suffix: string :: SuffixOk(suffix) <==> ReadableSuffix(suffix)
  {
    forall suffix: string
      ensures SuffixOk(suffix) <==> ReadableSuffix(suffix)
    {
      SuffixInPlain(suffix);
    }
  }

  lemma SuffixInPlain(suffix: string)
    ensures SuffixOk(suffix) <==> ReadableSuffix(suffix)
  {
    if 2 <= |suffix| {
      var human := suffix[1..];
      assert human[0] == suffix[1] && human[|human| - 1] == suffix[|suffix| - 1];
      assert forall i | 1 <= i < |suffix| :: suffix[i] == human[i - 1];
      assert forall i | 0 <= i < |human| :: human[i] == suffix[i + 1];
    }
  }

  /** Recognition is exactly the grammar: prefix, 24 hexadecimal digits, an optional readable part, `.json`. */
  lemma RecognitionIsTheGrammar(name: string, hash: string)
    ensures ParseOwnedFile(name) == Some(hash)
            <==> && |hash| == 24 && (forall i | 0 <= i < 24 :: '0' <= hash[i] <= '9' || 'a' <= hash[i] <= 'f')
                 && exists suffix: string :: ReadableSuffix(suffix) && Lower(TrimSpace(name)) == "codex-pat-" + hash + suffix + ".json"
  {
    if ParseOwnedFile(name) == Some(hash) {
      RecognisedHasGrammar(name, hash);
    }
    assert IsHex(hash) <==> |hash| == 24 && (forall i | 0 <= i < 24 :: '0' <= hash[i] <= '9' || 'a' <= hash[i] <= 'f');
    SuffixesInPlain();
    hide ParseOwnedFile, Lower, TrimSpace, IsHex, SuffixOk, ReadableSuffix;
    forall suffix: string | IsHex(hash) && SuffixOk(suffix) && Lower(TrimSpace(name)) == FILE_PREFIX + hash + suffix + JSON_SUFFIX
      ensures ParseOwnedFile(name) == Some(hash)
    {
      GrammarIsRecognised(name, hash, suffix);
    }
  }

  lemma RecognisedHasGrammar(name: string, hash: string)
    requires ParseOwnedFile(name) == Some(hash)
    ensures IsHex(hash)
    ensures exists suffix: string :: SuffixOk(suffix) && Lower(TrimSpace(name)) == FILE_PREFIX + hash + suffix + JSON_SUFFIX
  {
    hide Lower, TrimSpace, Base, HasSeparator;
    var lowered := Lower(TrimSpace(name));
    var stem := TrimAffixes(lowered);
    var suffix := stem[HASH_LENGTH..];
    AffixesRejoin(lowered);
    assert stem == hash + suffix;
    assert lowered == FILE_PREFIX + hash + suffix + JSON_SUFFIX;
    assert SuffixOk(suffix);
  }

  lemma AffixesRejoin(name: string)
    requires FILE_PREFIX <= name && HasSuffix(name, JSON_SUFFIX)
    ensures name == FILE_PREFIX + TrimAffixes(name) + JSON_SUFFIX
  {
    var rest := name[|FILE_PREFIX|..];
    assert name[|FILE_PREFIX| - 1] == '-';
    assert |name| >= |FILE_PREFIX| + |JSON_SUFFIX| by {
      assert forall i | 0 <= i < |JSON_SUFFIX| :: name[|name| - |JSON_SUFFIX| + i] == JSON_SUFFIX[i] && JSON_SUFFIX[i] != '-';
    }
    assert HasSuffix(rest, JSON_SUFFIX);
    assert name == FILE_PREFIX + rest;
  }

  lemma GrammarIsRecognised(name: string, hash: string, suffix: string)
    requires IsHex(hash) && SuffixOk(suffix)
    requires Lower(TrimSpace(name)) == FILE_PREFIX + hash + suffix + JSON_SUFFIX
    ensures ParseOwnedFile(name) == Some(hash)
  {
    var lowered := Lower(TrimSpace(name));
    GrammarAlphabet(hash, suffix);
    AlphabetIsLower(lowered);
    BaseIsName(lowered);
    AffixesOf(hash, suffix);
    TrimSpaceLower(name);
    TrimSpaceIdempotent(name);
    TrimSpaceLower(TrimSpace(name));
    RecognitionOfLower(name);
    TrimSpaceLower(name);
    RecognisedWhenLower(lowered, hash, suffix);
  }

  lemma GrammarAlphabet(hash: string, suffix: string)
    requires IsHex(hash) && SuffixOk(suffix)
    ensures FileNameAlphabet(FILE_PREFIX + hash + suffix + JSON_SUFFIX)
  {
    assert FileNameAlphabet(suffix) by {
      forall i | 0 <= i < |suffix|
        ensures IsAlphaNumeric(suffix[i]) || suffix[i] in EDGE
      {
        if i > 0 {
          assert suffix[i] == suffix[1..][i - 1];
        }
      }
    }
    assert FileNameAlphabet(FILE_PREFIX) && FileNameAlphabet(hash) && FileNameAlphabet(JSON_SUFFIX);
  }

  lemma RecognisedWhenLower(name: string, hash: string, suffix: string)
    requires IsHex(hash) && SuffixOk(suffix) && name == FILE_PREFIX + hash + suffix + JSON_SUFFIX
    requires Lower(name) == name && TrimSpace(name) == name && !HasSeparator(name) && Base(name) == name
    ensures ParseOwnedFile(name) == Some(hash)
  {
    hide Lower, TrimSpace, Base;
    AffixesOf(hash, suffix);
  }

  /** One name bound to two principals is a collision of the digest on two different preimages. */
  lemma SharedNameIsCollision(name: string, account: string, user: string, account': string, user': string)
    requires IsOwnedFileForPrincipal(name, account, user) && IsOwnedFileForPrincipal(name, account', user')
    requires !SamePrincipal(account, user, account', user')
    requires |account| < UINT32_SPAN && |account'| < UINT32_SPAN
    ensures var p, p' := Preimage(TrimSpace(account), TrimSpace(user)), Preimage(TrimSpace(account'), TrimSpace(user'));
            p != p' && LIB.digest(p) == LIB.digest(p')
  {
    hide ParseOwnedFile, Preimage;
    TrimSpaceIdempotent(account);
    TrimSpaceIdempotent(user);
    TrimSpaceIdempotent(account');
    TrimSpaceIdempotent(user');
    TrimSpaceShortens(account);
    TrimSpaceShortens(account');
    PreimageInjective(TrimSpace(account), TrimSpace(user), TrimSpace(account'), TrimSpace(user'));
  }

  // ---------- the same in plain terms ----------

  /** A name's readable part is the email's segment and then the plan's; an empty one leaves no hyphen. */
  lemma NamePartsInOrder(accountID: string, userID: string, email: string, planType: string)
    ensures var name := FileName(accountID, userID, email, planType);
            var start := "codex-pat-" + PrincipalHash(accountID, userID);
            var e, p := Segment(email, {'@', '.', '_', '+'}, 96), Segment(planType, {}, 48);
            && (e != "" && p != "" ==> name == start + "-" + e + "-" + p + ".json")
            && (e != "" && p == "" ==> name == start + "-" + e + ".json")
            && (e == "" && p != "" ==> name == start + "-" + p + ".json")
            && (e == "" && p == "" ==> name == start + ".json")
  {
    hide Segment, PrincipalHash;
  }

  /** An email and a plan that need no sanitising are read off the name as they are, in that order. */
  lemma NormalPartsAreShown(accountID: string, userID: string, email: string, planType: string)
    requires email != "" && NormalSegment(email, {'@', '.', '_', '+'}, 96)
    requires planType != "" && NormalSegment(planType, {}, 48)
    ensures FileName(accountID, userID, email, planType)
         == "codex-pat-" + PrincipalHash(accountID, userID) + "-" + email + "-" + planType + ".json"
  {
    hide Segment, PrincipalHash, NormalSegment;
    SegmentFixesExactlyNormal(email, {'@', '.', '_', '+'}, 96);
    SegmentFixesExactlyNormal(planType, {}, 48);
    NamePartsInOrder(accountID, userID, email, planType);
  }

  /** A safe name has no separator and ends in `.json`, in any letter case. */
  lemma SafeNameExactly(rawName: string)
    ensures IsSafeAuthFileName(rawName)
            <==> var name := TrimSpace(rawName); '/' !in name && '\\' !in name && HasSuffix(Lower(name), ".json")
  {
    hide TrimSpace, Lower, Base;
    BaseIsName(TrimSpace(rawName));
  }

  /** A name is bound to the principal, with both identifiers, whose hash it carries. */
  lemma BindingExactly(name: string, accountID: string, userID: string)
    ensures IsOwnedFileForPrincipal(name, accountID, userID)
            <==> TrimSpace(accountID) != "" && TrimSpace(userID) != "" && ParseOwnedFile(name) == Some(PrincipalHash(accountID, userID))
  {
    hide ParseOwnedFile, TrimSpace;
    TrimSpaceIdempotent(accountID);
    TrimSpaceIdempotent(userID);
  }

  // ---------- collapsing, piece by piece ----------

  predicate AllAllowed(s: string, extra: set<char>) {
    forall i | 0 <= i < |s| :: Allowed(s[i], extra)
  }

  predicate NoneAllowed(s: string, extra: set<char>) {
    forall i | 0 <= i < |s| :: !Allowed(s[i], extra)
  }

  /** Allowed characters stay as they are. */
  lemma {:induction false} CollapseOfAllowed(s: string, extra: set<char>)
    requires AllAllowed(s, extra)
    ensures Collapse(s, extra) == s
  {
    if s != "" {
      CollapseOfAllowed(s[..|s| - 1], extra);
    }
  }

  /** Characters that are not allowed vanish at the end, and at the beginning. */
  lemma {:induction false} CollapseDropsEnds(s: string, gap: string, extra: set<char>)
    requires NoneAllowed(gap, extra)
    ensures Collapse(s + gap, extra) == Collapse(s, extra)
    ensures Collapse(gap, extra) == ""
    decreases gap
  {
    if gap == "" {
      assert s + gap == s;
    } else {
      var front := gap[..|gap| - 1];
      assert (s + gap)[..|s + gap| - 1] == s + front;
      CollapseDropsEnds(s, front, extra);
    }
  }

  /** What the last character adds. */
  lemma CollapseLast(front: string, last: char, extra: set<char>)
    ensures Collapse(front + [last], extra)
         == var text := Collapse(front, extra);
            if !Allowed(last, extra) then text
            else if text != "" && !Allowed(front[|front| - 1], extra) then text + "-" + [last]
            else text + [last]
  {
    hide Allowed;
    var value := front + [last];
    assert value[..|value| - 1] == front && value[|value| - 1] == last;
    if front == "" {
      CollapseNothing(extra);
    }
  }

  /** Between two pieces they leave exactly one hyphen. */
  lemma {:induction false} CollapseJoins(left: string, gap: string, right: string, extra: set<char>)
    requires gap != "" && NoneAllowed(gap, extra) && right != "" && Allowed(right[0], extra)
    ensures Collapse(right, extra) != ""
    ensures Collapse(left + gap + right, extra)
         == Collapse(left, extra) + (if Collapse(left, extra) == "" then "" else "-") + Collapse(right, extra)
    decreases right
  {
    hide Collapse, Allowed;
    var before, front, last := left + gap, right[..|right| - 1], right[|right| - 1];
    assert right == front + [last] && before + right == (before + front) + [last];
    CollapseDropsEnds(left, gap, extra);
    CollapseLast(before + front, last, extra);
    CollapseLast(front, last, extra);
    if front == "" {
      CollapseNothing(extra);
      assert before + front == before && before[|before| - 1] == gap[|gap| - 1];
    } else {
      CollapseJoins(left, gap, front, extra);
      assert (before + front)[|before + front| - 1] == front[|front| - 1];
    }
  }
}
