/** Which file a credential is saved under, given what the host lists. */
module Resolver {
  import opened Text
  import opened Platform
  import opened Principal
  import opened OwnedNames
  import opened Credentials

  datatype HostEntry = HostEntry(
    runtimeOnly: bool, name: string, provider: string, typ: string, authIndex: string,
    disabled: bool, unavailable: bool, modTime: Time, updatedAt: Time)

  datatype Physical = Physical(name: string, document: Document)

  /** The host's answers during one resolution: its listing (or an error), and the file behind each index. */
  datatype HostView = HostView(files: Option<seq<HostEntry>>, physical: map<string, Physical>)

  function ProviderOf(entry: HostEntry): string {
    var provider := TrimSpace(entry.provider);
    if provider == "" then TrimSpace(entry.typ) else provider
  }

  function CanonicalName(c: Credential): string {
    FileName(c.accountID, c.userID, c.email, c.planType)
  }

  predicate IsCandidate(entry: HostEntry, canonical: string) {
    var name := TrimSpace(entry.name);
    EqualFold(ProviderOf(entry), PROVIDER) || IsOwnedFile(name) || EqualFold(name, canonical)
  }

  predicate IsListed(entry: HostEntry) {
    !entry.runtimeOnly && TrimSpace(entry.name) != ""
  }

  function PhysicalName(entry: HostEntry, physical: Physical): string {
    if TrimSpace(physical.name) == "" then TrimSpace(entry.name) else TrimSpace(physical.name)
  }

  /** What one inspected file means for saving `c`. */
  datatype Verdict = Ignored | Refused | Mine(name: string)

  function JudgeFile(name: string, document: Document, c: Credential): Verdict {
    var decoded := DecodeOwnedCredential(document);
    if decoded.Owned? && IsOwnedFile(name)
       && !IsOwnedFileForPrincipal(name, decoded.credential.accountID, decoded.credential.userID) then Refused
    else if decoded.Owned? && SamePrincipal(decoded.credential.accountID, decoded.credential.userID, c.accountID, c.userID) then
      if IsOwnedFile(name) then Mine(name) else Ignored
    else if decoded.OwnedMalformed? && IsOwnedFile(name) then Refused
    else if !decoded.Foreign? && ParseOwnedFile(name) == Some(PrincipalHash(c.accountID, c.userID)) then Refused
    else Ignored
  }

  function Judge(view: HostView, entry: HostEntry, c: Credential): Verdict {
    if !IsListed(entry) || !IsCandidate(entry, CanonicalName(c)) then Ignored
    else
      var index := TrimSpace(entry.authIndex);
      if index == "" || index !in view.physical then Refused
      else
        var physical := view.physical[index];
        var name := PhysicalName(entry, physical);
        if !IsSafeAuthFileName(name) then Refused else JudgeFile(name, physical.document, c)
  }

  /** A listed name, or an inspected file's name, is the canonical one up to case. */
  predicate Occupies(view: HostView, entry: HostEntry, canonical: string) {
    && IsListed(entry)
    && (|| EqualFold(TrimSpace(entry.name), canonical)
        || (&& IsCandidate(entry, canonical)
            && TrimSpace(entry.authIndex) in view.physical
            && EqualFold(PhysicalName(entry, view.physical[TrimSpace(entry.authIndex)]), canonical)))
  }

  // ---------- what resolution means ----------

  ghost predicate AnyRefused(view: HostView, files: seq<HostEntry>, c: Credential) {
    exists entry | entry in files :: Judge(view, entry, c).Refused?
  }

  ghost predicate AnyOccupies(view: HostView, files: seq<HostEntry>, c: Credential) {
    exists entry | entry in files :: Occupies(view, entry, CanonicalName(c))
  }

  /** The names of the files that are already this principal's. */
  ghost function MineNames(view: HostView, files: seq<HostEntry>, c: Credential): set<string> {
    set entry | entry in files && Judge(view, entry, c).Mine? :: Judge(view, entry, c).name
  }

  ghost predicate CaseClash(names: set<string>) {
    exists a, b | a in names && b in names :: a != b && EqualFold(a, b)
  }

  /**
   The name to save under: none when any file is refused, when two of the
   principal's names differ only by case, when the preferred name is not one of
   them, when there are several and none is preferred, or when there is none
   and the canonical name is taken.
   */
  ghost function Resolution(view: HostView, c: Credential, rawPreferred: string): Option<string> {
    var preferred := TrimSpace(rawPreferred);
    if (preferred != "" && !IsSafeAuthFileName(preferred)) || view.files.None? then None
    else
      var files := view.files.value;
      var mine := MineNames(view, files, c);
      if AnyRefused(view, files, c) || CaseClash(mine) then None
      else Choice(mine, preferred, AnyOccupies(view, files, c), CanonicalName(c))
  }

  ghost function Choice(mine: set<string>, preferred: string, occupied: bool, canonical: string): Option<string> {
    if preferred != "" then
      if exists name | name in mine :: EqualFold(name, preferred) then
        var name :| name in mine && EqualFold(name, preferred);
        Some(name)
      else None
    else if |mine| > 1 then None
    else if mine != {} then
      var name :| name in mine;
      Some(name)
    else if occupied then None
    else Some(canonical)
  }

  // ---------- the resolution loop ----------

  method ResolveFileName(view: HostView, c: Credential, rawPreferred: string) returns (result: Option<string>)
    ensures result == Resolution(view, c, rawPreferred)
  {
    var canonicalName := CanonicalName(c);
    var preferred := TrimSpace(rawPreferred);
    if preferred != "" && !IsSafeAuthFileName(preferred) {
      return None;
    }
    if view.files.None? {
      return None;
    }
    var failed, samePrincipalFiles, canonicalOccupied := CollectSamePrincipal(view, view.files.value, c);
    if failed {
      return None;
    }
    RecordsNoClash(samePrincipalFiles, view, view.files.value, c);
    RecordsSize(samePrincipalFiles, view, view.files.value, c);
    result := ChooseName(samePrincipalFiles, preferred, canonicalOccupied, canonicalName);
  }

  method ChooseName(samePrincipalFiles: map<string, string>, preferred: string, canonicalOccupied: bool, canonicalName: string)
    returns (result: Option<string>)
    requires forall key | key in samePrincipalFiles :: key == Lower(samePrincipalFiles[key])
    requires !CaseClash(samePrincipalFiles.Values) && |samePrincipalFiles| == |samePrincipalFiles.Values|
    ensures result == Choice(samePrincipalFiles.Values, preferred, canonicalOccupied, canonicalName)
  {
    if preferred != "" {
      result := PickPreferred(samePrincipalFiles, preferred);
      return;
    }
    if |samePrincipalFiles| > 1 {
      return None;
    }
    if samePrincipalFiles != map[] {
      var key :| key in samePrincipalFiles;
      OneName(samePrincipalFiles.Values, samePrincipalFiles[key]);
      return Some(samePrincipalFiles[key]);
    }
    if canonicalOccupied {
      return None;
    }
    return Some(canonicalName);
  }

  /** The loop over the listing: fails on a refused file or on two names that differ only by case. */
  method CollectSamePrincipal(view: HostView, files: seq<HostEntry>, c: Credential)
    returns (failed: bool, samePrincipalFiles: map<string, string>, canonicalOccupied: bool)
    ensures failed <==> AnyRefused(view, files, c) || CaseClash(MineNames(view, files, c))
    ensures !failed ==> Records(samePrincipalFiles, view, files, c)
    ensures !failed ==> (canonicalOccupied <==> AnyOccupies(view, files, c))
  {
    hide Judge, Occupies, CanonicalName, PrincipalHash, Lower;
    var canonicalName := CanonicalName(c);
    var currentHash := PrincipalHash(c.accountID, c.userID);
    failed, canonicalOccupied := false, false;
    samePrincipalFiles := map[];
    for i := 0 to |files|
      invariant !AnyRefused(view, files[..i], c)
      invariant canonicalOccupied <==> AnyOccupies(view, files[..i], c)
      invariant Records(samePrincipalFiles, view, files[..i], c)
    {
      var file := files[i];
      assert files[..i + 1] == files[..i] + [file];
      AnyAppend(view, files[..i], file, c);
      var verdict, occupied := InspectEntry(view, file, c, canonicalName, currentHash);
      match verdict {
        case Refused =>
          return true, samePrincipalFiles, canonicalOccupied;
        case Ignored =>
          RecordsIgnored(samePrincipalFiles, view, files[..i], file, c);
        case Mine(physicalName) =>
          var key := Lower(physicalName);
          if key in samePrincipalFiles && samePrincipalFiles[key] != physicalName {
            ClashFound(samePrincipalFiles, view, files[..i], file, c);
            ClashInWhole(view, files, i + 1, c);
            return true, samePrincipalFiles, canonicalOccupied;
          }
          RecordsMine(samePrincipalFiles, view, files[..i], file, c);
          samePrincipalFiles := samePrincipalFiles[key := physicalName];
      }
      canonicalOccupied := canonicalOccupied || occupied;
    }
    assert files[..|files|] == files;
    RecordsNoClash(samePrincipalFiles, view, files, c);
  }

  /** The body of the loop up to the recording of a same-principal name. */
  method InspectEntry(view: HostView, file: HostEntry, c: Credential, canonicalName: string, currentHash: string)
    returns (verdict: Verdict, occupied: bool)
    requires canonicalName == CanonicalName(c) && currentHash == PrincipalHash(c.accountID, c.userID)
    ensures verdict == Judge(view, file, c)
    ensures !verdict.Refused? ==> (occupied <==> Occupies(view, file, canonicalName))
  {
    occupied := false;
    if file.runtimeOnly {
      return Ignored, occupied;
    }
    var name := TrimSpace(file.name);
    if name == "" {
      return Ignored, occupied;
    }
    if EqualFold(name, canonicalName) {
      occupied := true;
    }
    var provider := TrimSpace(file.provider);
    if provider == "" {
      provider := TrimSpace(file.typ);
    }
    if !EqualFold(provider, PROVIDER) && !IsOwnedFile(name) && !EqualFold(name, canonicalName) {
      return Ignored, occupied;
    }
    var authIndex := TrimSpace(file.authIndex);
    if authIndex == "" {
      return Refused, occupied;
    }
    if authIndex !in view.physical {
      return Refused, occupied;
    }
    var physical := view.physical[authIndex];
    var physicalName := TrimSpace(physical.name);
    if physicalName == "" {
      physicalName := name;
    }
    if !IsSafeAuthFileName(physicalName) {
      return Refused, occupied;
    }
    if EqualFold(physicalName, canonicalName) {
      occupied := true;
    }
    verdict := InspectFile(physicalName, physical.document, c, currentHash);
  }

  method InspectFile(physicalName: string, document: Document, c: Credential, currentHash: string) returns (verdict: Verdict)
    requires currentHash == PrincipalHash(c.accountID, c.userID)
    ensures verdict == JudgeFile(physicalName, document, c)
  {
    hide DecodeOwnedCredential, ParseOwnedFile, PrincipalHash, TrimSpace;
    var decoded := DecodeOwnedCredential(document);
    var owned := decoded.Owned? || decoded.OwnedMalformed?;
    var decodeFailed := decoded.OwnedMalformed? || decoded.Undecodable?;
    if owned && !decodeFailed && IsOwnedFile(physicalName)
       && !IsOwnedFileForPrincipal(physicalName, decoded.credential.accountID, decoded.credential.userID) {
      return Refused;
    }
    if owned && !decodeFailed
       && SamePrincipal(decoded.credential.accountID, decoded.credential.userID, c.accountID, c.userID) {
      return if IsOwnedFile(physicalName) then Mine(physicalName) else Ignored;
    }
    if owned && IsOwnedFile(physicalName)
       && (decodeFailed || TrimSpace(decoded.credential.accountID) == "" || TrimSpace(decoded.credential.userID) == "") {
      return Refused;
    }
    var descriptor := ParseOwnedFile(physicalName);
    if descriptor.Some? && (owned || decodeFailed) {
      if descriptor.value == currentHash {
        return Refused;
      }
    }
    return Ignored;
  }

  method PickPreferred(files: map<string, string>, preferred: string) returns (result: Option<string>)
    requires forall key | key in files :: key == Lower(files[key])
    ensures result.Some? ==> result.value in files.Values && EqualFold(result.value, preferred)
    ensures result.None? ==> forall name | name in files.Values :: !EqualFold(name, preferred)
  {
    var pending := files.Keys;
    while pending != {}
      invariant pending <= files.Keys
      invariant forall key | key in files && key !in pending :: !EqualFold(files[key], preferred)
      decreases |pending|
    {
      var key :| key in pending;
      if EqualFold(files[key], preferred) {
        return Some(files[key]);
      }
      pending := pending - {key};
    }
    return None;
  }

  /** The recorded names are exactly the principal's, each under its lower-case form. */
  ghost predicate Records(recorded: map<string, string>, view: HostView, files: seq<HostEntry>, c: Credential) {
    && (forall key | key in recorded :: key == Lower(recorded[key]) && recorded[key] in MineNames(view, files, c))
    && (forall name | name in MineNames(view, files, c) :: Lower(name) in recorded && recorded[Lower(name)] == name)
  }

  lemma AnyAppend(view: HostView, files: seq<HostEntry>, file: HostEntry, c: Credential)
    ensures AnyRefused(view, files + [file], c) <==> AnyRefused(view, files, c) || Judge(view, file, c).Refused?
    ensures AnyOccupies(view, files + [file], c) <==> AnyOccupies(view, files, c) || Occupies(view, file, CanonicalName(c))
  {
    hide Judge, Occupies, CanonicalName;
  }

  lemma MineNamesAppend(view: HostView, files: seq<HostEntry>, file: HostEntry, c: Credential)
    ensures MineNames(view, files + [file], c)
         == MineNames(view, files, c) + (if Judge(view, file, c).Mine? then {Judge(view, file, c).name} else {})
  {
    hide Judge;
  }

  lemma RecordsIgnored(recorded: map<string, string>, view: HostView, files: seq<HostEntry>, file: HostEntry, c: Credential)
    requires Records(recorded, view, files, c) && !Judge(view, file, c).Mine?
    ensures Records(recorded, view, files + [file], c)
  {
    hide Judge, Lower;
    MineNamesAppend(view, files, file, c);
  }

  lemma RecordsMine(recorded: map<string, string>, view: HostView, files: seq<HostEntry>, file: HostEntry, c: Credential)
    requires Records(recorded, view, files, c) && Judge(view, file, c).Mine?
    requires var name := Judge(view, file, c).name; Lower(name) in recorded ==> recorded[Lower(name)] == name
    ensures var name := Judge(view, file, c).name; Records(recorded[Lower(name) := name], view, files + [file], c)
  {
    hide Judge, Lower, MineNames;
    MineNamesAppend(view, files, file, c);
    RecordsAdded(recorded, MineNames(view, files, c), Judge(view, file, c).name);
  }

  lemma RecordsAdded(recorded: map<string, string>, names: set<string>, added: string)
    requires forall key | key in recorded :: key == Lower(recorded[key]) && recorded[key] in names
    requires forall name | name in names :: Lower(name) in recorded && recorded[Lower(name)] == name
    requires Lower(added) in recorded ==> recorded[Lower(added)] == added
    ensures var now := recorded[Lower(added) := added];
            && (forall key | key in now :: key == Lower(now[key]) && now[key] in names + {added})
            && (forall name | name in names + {added} :: Lower(name) in now && now[Lower(name)] == name)
  {
  }

  lemma ClashFound(recorded: map<string, string>, view: HostView, files: seq<HostEntry>, file: HostEntry, c: Credential)
    requires Records(recorded, view, files, c) && Judge(view, file, c).Mine?
    requires var name := Judge(view, file, c).name; Lower(name) in recorded && recorded[Lower(name)] != name
    ensures CaseClash(MineNames(view, files + [file], c))
  {
    MineNamesAppend(view, files, file, c);
    var name := Judge(view, file, c).name;
    assert EqualFold(name, recorded[Lower(name)]);
  }

  lemma ClashInWhole(view: HostView, files: seq<HostEntry>, n: nat, c: Credential)
    requires n <= |files| && CaseClash(MineNames(view, files[..n], c))
    ensures CaseClash(MineNames(view, files, c))
  {
    assert MineNames(view, files[..n], c) <= MineNames(view, files, c);
  }

  lemma RecordsNoClash(recorded: map<string, string>, view: HostView, files: seq<HostEntry>, c: Credential)
    requires Records(recorded, view, files, c)
    ensures !CaseClash(MineNames(view, files, c))
    ensures recorded.Values == MineNames(view, files, c)
  {
  }

  lemma RecordsSize(recorded: map<string, string>, view: HostView, files: seq<HostEntry>, c: Credential)
    requires Records(recorded, view, files, c)
    ensures |recorded| == |MineNames(view, files, c)|
  {
    var mine := MineNames(view, files, c);
    SameSize(mine, recorded.Keys);
    assert |recorded| == |recorded.Keys|;
  }

  /** Lowering is a bijection between names without a case clash and their keys. */
  lemma {:induction false} SameSize(names: set<string>, keys: set<string>)
    requires forall name | name in names :: Lower(name) in keys
    requires forall key | key in keys :: exists name | name in names :: Lower(name) == key
    requires !CaseClash(names)
    ensures |names| == |keys|
    decreases names
  {
    if names == {} {
      assert keys == {};
    } else {
      var name :| name in names;
      forall key | key in keys - {Lower(name)}
        ensures exists other | other in names - {name} :: Lower(other) == key
      {
        var other :| other in names && Lower(other) == key;
        assert other in names - {name};
      }
      forall other | other in names - {name}
        ensures Lower(other) in keys - {Lower(name)}
      {
        assert !EqualFold(other, name);
      }
      SameSize(names - {name}, keys - {Lower(name)});
    }
  }

  lemma OneName(names: set<string>, name: string)
    requires |names| <= 1 && name in names
    ensures names == {name}
  {
    assert |names - {name}| == 0;
  }

  // ---------- laws ----------

  /** Neither the order nor the repetition of the host's entries matters. */
  lemma ResolutionIgnoresOrder(view: HostView, view': HostView, c: Credential, preferred: string)
    requires view.files.Some? && view'.files.Some? && view.physical == view'.physical
    requires forall entry :: entry in view.files.value <==> entry in view'.files.value
    ensures Resolution(view, c, preferred) == Resolution(view', c, preferred)
  {
    var files, files' := view.files.value, view'.files.value;
    forall entry: HostEntry
      ensures Judge(view, entry, c) == Judge(view', entry, c)
      ensures Occupies(view, entry, CanonicalName(c)) == Occupies(view', entry, CanonicalName(c))
    {
    }
    assert MineNames(view, files, c) == MineNames(view', files', c);
    assert AnyRefused(view, files, c) == AnyRefused(view', files', c);
    assert AnyOccupies(view, files, c) == AnyOccupies(view', files', c);
  }

  /** A name recorded as the principal's is bound to it. */
  lemma MineIsBound(view: HostView, entry: HostEntry, c: Credential)
    requires Judge(view, entry, c).Mine?
    ensures IsOwnedFileForPrincipal(Judge(view, entry, c).name, c.accountID, c.userID)
    ensures IsSafeAuthFileName(Judge(view, entry, c).name)
  {
    hide DecodeOwnedCredential, ParseOwnedFile, PrincipalHash, TrimSpace, IsSafeAuthFileName, IsCandidate;
  }

  /** Whatever the host lists, a resolved name is bound to the principal that is being saved. */
  lemma ResolvedNameIsBound(view: HostView, c: Credential, preferred: string)
    requires Resolution(view, c, preferred).Some?
    requires TrimSpace(c.accountID) != "" && TrimSpace(c.userID) != ""
    ensures var name := Resolution(view, c, preferred).value;
            IsOwnedFileForPrincipal(name, c.accountID, c.userID) && IsSafeAuthFileName(name)
  {
    hide ParseOwnedFile, PrincipalHash, TrimSpace, IsSafeAuthFileName, Judge, Occupies;
    var name := Resolution(view, c, preferred).value;
    var files := view.files.value;
    if name in MineNames(view, files, c) {
      var entry :| entry in files && Judge(view, entry, c) == Mine(name);
      MineIsBound(view, entry, c);
    } else {
      CanonicalNameIsBound(c.accountID, c.userID, c.email, c.planType);
      PrintedNameIsRecognised(c.accountID, c.userID, c.email, c.planType, name);
    }
  }
}
