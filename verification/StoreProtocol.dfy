/**
 The auth directory under concurrent management requests, the host's watcher and
 other software. Requests serialise on one mutex; listing the files, getting each
 of them and writing are steps of their own between which the others act, and a
 request may stop after any of them.
 */
module StoreProtocol {
  import opened Text
  import opened Platform
  import opened Principal
  import opened OwnedNames
  import opened HostStream
  import opened Credentials
  import opened Lifecycle
  import opened Decisions
  import opened Resolver

  datatype Owner = Owner(account: string, user: string)

  /** A file: what is in it, and whose it was when it last could be read, while it cannot. */
  datatype Stored = Stored(document: Document, lost: Option<Owner>)

  type Files = map<string, Stored>

  function OwnerOf(c: Credential): Owner {
    Owner(TrimSpace(c.accountID), TrimSpace(c.userID))
  }

  /** A half-written or damaged file: it does not say whose it is. */
  predicate Unreadable(document: Document) {
    DecodeOwnedCredential(document).Undecodable? || DecodeOwnedCredential(document).OwnedMalformed?
  }

  /** The principal whose credential a plugin-owned file holds. */
  function ContentOwner(name: string, document: Document): Option<Owner> {
    var decoded := DecodeOwnedCredential(document);
    if IsOwnedFile(name) && decoded.Owned? then Some(OwnerOf(decoded.credential)) else None
  }

  /** The principal a plugin-owned file belongs to, also while it is unreadable; `None` for every other file. */
  function FileOwner(name: string, file: Stored): Option<Owner> {
    if IsOwnedFile(name) && Unreadable(file.document) then file.lost else ContentOwner(name, file.document)
  }

  ghost predicate BelongsTo(files: Files, name: string, owner: Owner) {
    name in files && FileOwner(name, files[name]) == Some(owner)
  }

  // ---------- what must hold of the directory ----------

  /** Every plugin-owned name carries the hash of the principal it belongs to. */
  ghost predicate NamesBound(files: Files) {
    forall name, owner | BelongsTo(files, name, owner) :: IsOwnedFileForPrincipal(name, owner.account, owner.user)
  }

  /** No principal has two plugin-owned files. */
  ghost predicate OneFileEach(files: Files) {
    forall name, other, owner | BelongsTo(files, name, owner) && BelongsTo(files, other, owner) :: name == other
  }

  /** No other name is the same as a plugin name up to case. */
  ghost predicate NamesDistinct(files: Files) {
    forall name, other | name in files && other in files && IsOwnedFile(name) && EqualFold(name, other) :: name == other
  }

  ghost predicate StoreOk(files: Files) {
    NamesBound(files) && OneFileEach(files) && NamesDistinct(files)
  }

  /**
   `name` may be written for the principal of `c`: it is that principal's only
   file, or a name under which no principal has one.
   */
  ghost predicate Claim(files: Files, c: Credential, name: string) {
    && IsOwnedFileForPrincipal(name, c.accountID, c.userID)
    && (forall owner | BelongsTo(files, name, owner) :: owner == OwnerOf(c))
    && (forall other | BelongsTo(files, other, OwnerOf(c)) :: other == name)
    && (forall other | other in files && EqualFold(other, name) :: other == name)
  }

  // ---------- what a request knows of the directory ----------

  /** The file the host returns for an index has the name it was listed under, and its present content. */
  ghost predicate Returned(listing: seq<HostEntry>, index: string, physical: Physical, files: Files) {
    forall entry | entry in listing && IsListed(entry) && TrimSpace(entry.authIndex) == index ::
      && PhysicalName(entry, physical) == TrimSpace(entry.name)
      && TrimSpace(entry.name) in files
      && physical.document == files[TrimSpace(entry.name)].document
  }

  ghost predicate ListsAll(listing: seq<HostEntry>, files: Files) {
    forall name | name in files :: Lists(listing, name)
  }

  /**
   A name that was free when the listing was taken from `snapshot`, and is no case
   variant of the name a request for `c` would create.
   */
  ghost predicate Newcomer(snapshot: Files, c: Credential, name: string) {
    && (forall other | other in snapshot :: !EqualFold(other, name))
    && (EqualFold(name, CanonicalName(c)) ==> name == CanonicalName(c))
  }

  /** What the watcher and other software can have done to the plugin's files since the listing. */
  ghost predicate Drifted(snapshot: Files, files: Files, c: Credential) {
    && (forall name, owner | BelongsTo(files, name, owner) :: BelongsTo(snapshot, name, owner))
    && (forall name | name in files && IsOwnedFile(name) && name !in snapshot :: Newcomer(snapshot, c, name))
  }

  /**
   A view collected while the directory went from `snapshot` to `files`: it lists
   every file of the snapshot, and a returned file held a principal's credential
   only if it is that principal's in the snapshot; if it is a principal's now, it
   held that principal's credential or could not be read.
   */
  ghost predicate Observed(view: HostView, snapshot: Files, files: Files, c: Credential) {
    && StoreOk(snapshot) && Drifted(snapshot, files, c)
    && view.files.Some? && ListsAll(view.files.value, snapshot)
    && (forall entry | entry in view.files.value && IsListed(entry) && TrimSpace(entry.authIndex) in view.physical ::
          Witnessed(entry, view.physical[TrimSpace(entry.authIndex)], snapshot, files))
  }

  ghost predicate Witnessed(entry: HostEntry, physical: Physical, snapshot: Files, files: Files) {
    var name := TrimSpace(entry.name);
    && PhysicalName(entry, physical) == name
    && (forall owner | ContentOwner(name, physical.document) == Some(owner) :: BelongsTo(snapshot, name, owner))
    && (forall owner | BelongsTo(files, name, owner) ::
          ContentOwner(name, physical.document) == Some(owner) || Unreadable(physical.document))
  }

  ghost predicate Lists(entries: seq<HostEntry>, name: string) {
    exists entry | entry in entries :: IsListed(entry) && TrimSpace(entry.name) == name
  }

  // ---------- the protocol ----------

  datatype Phase =
    | Locked
    | Planned(c: Credential, preferred: string)
      // the listing, the directory it was taken from, and the files returned so far
    | Listed(c: Credential, preferred: string, view: HostView, snapshot: Files)
    | Resolved(c: Credential, name: string)
    | Published(c: Credential, name: string)

  /** `phases` holds the requests inside a handler's critical section. */
  datatype State = State(files: Files, mutex: Option<nat>, phases: map<nat, Phase>)

  datatype Action =
    | Acquire(id: nat)
    | PlanImport(id: nat, rawToken: string, endpointValid: bool, response: HttpResult, now: Time)
    | PlanRevalidation(id: nat, fileName: string, document: Document, endpointValid: bool, response: HttpResult, now: Time)
    | List(id: nat, listing: Option<seq<HostEntry>>)
    | Get(id: nat, index: string, physical: Physical)
    | Choose(id: nat)
    | WriteStaging(id: nat)
    | WriteFinal(id: nat)
    | Release(id: nat)
      // the host's watcher, and other software
    | Remove(name: string)
    | Garble(name: string, document: Document)
    | Restore(name: string, document: Document)
    | Republish(id: nat, name: string, document: Document)
    | Corrupt(name: string, document: Document)
    | Outside(name: string, document: Document)
    | Intrude(name: string, file: Stored)

  /** The credential the request decides to save and its preferred name, `None` when it decides not to. */
  function PlanOf(action: Action): Option<(Credential, string)>
    requires action.PlanImport? || action.PlanRevalidation?
  {
    match action
    case PlanImport(_, rawToken, endpointValid, response, now) =>
      (match ImportPlan(rawToken, endpointValid, response, now)
       case Ok(c) => Some((c, ""))
       case Err(_) => None)
    case PlanRevalidation(_, fileName, document, endpointValid, response, now) =>
      (match RevalidationTarget(fileName, document)
       case Usable(c) =>
         (match RevalidationPlan(c, endpointValid, response, now)
          case Ok(revision) => Some((revision.credential, fileName))
          case Err(_) => None)
       case _ => None)
  }

  /**
   When an action can happen. The request steps follow the handler's order and
   never look at the mutex again after taking it; an index that was not got when
   the request chooses is one whose file the host failed to return. The watcher
   may remove a file, make it unreadable, give a principal's file, readable or
   not, other content of that principal, turn it into a file that is nobody's, and
   put content of a request's principal under the name the request has resolved to.
   Other software may create a file that is nobody's at any time, and a
   principal's first file, whole or half written, while no request is in progress.
   */
  ghost predicate Enabled(s: State, action: Action) {
    match action
    case Acquire(id) => s.mutex.None? && id !in s.phases
    case PlanImport(id, _, _, _, _) => id in s.phases && s.phases[id].Locked?
    case PlanRevalidation(id, _, _, _, _, _) => id in s.phases && s.phases[id].Locked?
    case List(id, listing) => id in s.phases && s.phases[id].Planned? && (listing.Some? ==> ListsAll(listing.value, s.files))
    case Get(id, index, physical) =>
      && id in s.phases && s.phases[id].Listed? && s.phases[id].view.files.Some?
      && index !in s.phases[id].view.physical
      && Returned(s.phases[id].view.files.value, index, physical, s.files)
    case Choose(id) => id in s.phases && s.phases[id].Listed?
    case WriteStaging(id) => id in s.phases && s.phases[id].Resolved?
    case WriteFinal(id) => id in s.phases && (s.phases[id].Resolved? || s.phases[id].Published?)
    case Release(id) => id in s.phases
    case Remove(name) => name in s.files
    case Garble(name, document) => name in s.files && Unreadable(document)
    case Restore(name, document) =>
      name in s.files && ContentOwner(name, document).Some? && ContentOwner(name, document) == FileOwner(name, s.files[name])
    case Republish(id, name, document) =>
      && id in s.phases && (s.phases[id].Resolved? || s.phases[id].Published?) && s.phases[id].name == name
      && ContentOwner(name, document) == Some(OwnerOf(s.phases[id].c))
    case Corrupt(name, document) => name in s.files && ContentOwner(name, document).None?
    case Outside(name, _) => !IsOwnedFile(name)
    case Intrude(name, file) =>
      && IsOwnedFile(name) && (forall other | other in s.files :: !EqualFold(other, name))
      && (forall id | id in s.phases :: KeepsClear(s.phases[id], name))
      && (FileOwner(name, file).Some? ==> s.phases == map[] && FirstFile(s.files, name, FileOwner(name, file).value))
  }

  /** Other software does not take a case variant of a name the request may write; it may bring back a listed name. */
  ghost predicate KeepsClear(phase: Phase, name: string) {
    match phase
    case Locked => true
    case Planned(_, _) => true
    case Listed(c, _, _, snapshot) => name in snapshot || Newcomer(snapshot, c, name)
    case Resolved(_, target) => EqualFold(name, target) ==> name == target
    case Published(_, target) => EqualFold(name, target) ==> name == target
  }

  /** A file under `name` would be this principal's first, and rightly named. */
  ghost predicate FirstFile(files: Files, name: string, owner: Owner) {
    IsOwnedFileForPrincipal(name, owner.account, owner.user) && forall other :: !BelongsTo(files, other, owner)
  }

  /** A file that nothing has been lost from. */
  function Whole(document: Document): Stored {
    Stored(document, None)
  }

  ghost function Apply(s: State, action: Action): State
    requires Enabled(s, action)
  {
    match action
    case Acquire(id) => s.(mutex := Some(id), phases := s.phases[id := Locked])
    case PlanImport(id, _, _, _, _) => Decide(s, id, PlanOf(action))
    case PlanRevalidation(id, _, _, _, _, _) => Decide(s, id, PlanOf(action))
    case List(id, listing) =>
      var plan := s.phases[id];
      if listing.None? then Leave(s, id)
      else s.(phases := s.phases[id := Listed(plan.c, plan.preferred, HostView(listing, map[]), s.files)])
    case Get(id, index, physical) =>
      var seen := s.phases[id];
      s.(phases := s.phases[id := seen.(view := seen.view.(physical := seen.view.physical[index := physical]))])
    case Choose(id) =>
      var seen := s.phases[id];
      (match Resolution(seen.view, seen.c, seen.preferred)
       case Some(name) => s.(phases := s.phases[id := Resolved(seen.c, name)])
       case None => Leave(s, id))
    case WriteStaging(id) =>
      var c, name := s.phases[id].c, s.phases[id].name;
      s.(files := s.files[name := Whole(Marshal(Staged(c)))], phases := s.phases[id := Published(c, name)])
    case WriteFinal(id) =>
      var c, name := s.phases[id].c, s.phases[id].name;
      s.(files := s.files[name := Whole(Marshal(c))], phases := s.phases[id := Published(c, name)])
    case Release(id) => Leave(s, id)
    case Remove(name) => s.(files := s.files - {name})
    case Garble(name, document) => s.(files := s.files[name := Stored(document, FileOwner(name, s.files[name]))])
    case Restore(name, document) => s.(files := s.files[name := Whole(document)])
    case Republish(_, name, document) => s.(files := s.files[name := Whole(document)])
    case Corrupt(name, document) => s.(files := s.files[name := Whole(document)])
    case Outside(name, document) => s.(files := s.files[name := Whole(document)])
    case Intrude(name, file) => s.(files := s.files[name := file])
  }

  /** The save refuses an incomplete credential before it looks at the directory. */
  ghost function Decide(s: State, id: nat, plan: Option<(Credential, string)>): State
    requires id in s.phases
  {
    if plan.Some? && IsValid(plan.value.0) then s.(phases := s.phases[id := Planned(plan.value.0, plan.value.1)])
    else Leave(s, id)
  }

  ghost function Leave(s: State, id: nat): State {
    State(s.files, None, s.phases - {id})
  }

  // ---------- the invariant ----------

  ghost predicate PhaseOk(files: Files, phase: Phase) {
    match phase
    case Locked => true
    case Planned(c, _) => IsValid(c)
    case Listed(c, _, view, snapshot) => IsValid(c) && Observed(view, snapshot, files, c)
    case Resolved(c, name) => IsValid(c) && Claim(files, c, name)
    case Published(c, name) => IsValid(c) && Claim(files, c, name)
  }

  ghost predicate Inv(s: State) {
    && StoreOk(s.files)
    && s.phases.Keys == (if s.mutex.Some? then {s.mutex.value} else {})
    && (forall id | id in s.phases :: PhaseOk(s.files, s.phases[id]))
  }

  lemma OnlyPluginNamesAreOwned()
    ensures forall name, file | FileOwner(name, file).Some? :: IsOwnedFile(name)
  {
    hide DecodeOwnedCredential, ParseOwnedFile;
  }

  lemma SavedFileOwner(c: Credential, name: string)
    requires IsValid(c) && IsOwnedFile(name)
    ensures FileOwner(name, Whole(Marshal(c))) == Some(OwnerOf(c))
    ensures FileOwner(name, Whole(Marshal(Staged(c)))) == Some(OwnerOf(c))
  {
    hide DecodeOwnedCredential, Marshal, EncodedFields, IsValid, ParseOwnedFile, TrimSpace;
    ValidIsMarked(c);
    MarshalledIsOwned(c);
    MarshalledIsOwned(Staged(c));
  }

  lemma ValidIsMarked(c: Credential)
    requires IsValid(c)
    ensures Lower(TrimSpace(c.typ)) == PROVIDER && Lower(TrimSpace(c.authKind)) == AUTH_KIND
  {
    hide TrimSpace, Lower, ValidHeaders, ValidPrefix, ValidRaw;
  }

  /** A file whose name is bound to the principal and that was returned unreadable makes the request refuse. */
  lemma UnreadableIsRefused(name: string, document: Document, c: Credential)
    requires Unreadable(document) && IsOwnedFileForPrincipal(name, c.accountID, c.userID)
    ensures JudgeFile(name, document, c).Refused?
  {
    hide DecodeOwnedCredential, ParseOwnedFile, PrincipalHash, TrimSpace;
    HashOfTrimmed(c.accountID, c.userID);
  }

  lemma HashOfTrimmed(account: string, user: string)
    ensures PrincipalHash(TrimSpace(account), TrimSpace(user)) == PrincipalHash(account, user)
  {
    hide TrimSpace;
    TrimSpaceIdempotent(account);
    TrimSpaceIdempotent(user);
  }

  /** A principal's file that is there now was returned as the principal's, or made the request refuse. */
  lemma ListedFileIsMine(view: HostView, snapshot: Files, files: Files, c: Credential, name: string)
    requires Observed(view, snapshot, files, c) && IsValid(c)
    requires BelongsTo(files, name, OwnerOf(c))
    requires !AnyRefused(view, view.files.value, c)
    ensures name in MineNames(view, view.files.value, c)
  {
    hide DecodeOwnedCredential, ParseOwnedFile, IsValid, CanonicalName, PrincipalHash, IsSafeAuthFileName, TrimSpace,
         OneFileEach, NamesDistinct, Newcomer, JudgeFile;
    var entry := EntryOf(view, snapshot, files, c, name, OwnerOf(c));
    assert !Judge(view, entry, c).Refused?;
    var physical := view.physical[TrimSpace(entry.authIndex)];
    assert Witnessed(entry, physical, snapshot, files);
    assert Judge(view, entry, c) == JudgeFile(name, physical.document, c);
    BoundToTrimmed(name, c);
    if Unreadable(physical.document) {
      UnreadableIsRefused(name, physical.document, c);
    } else {
      ReadableIsMine(name, physical.document, c);
    }
  }

  /** Binding a name looks at trimmed identifiers only. */
  lemma BoundToTrimmed(name: string, c: Credential)
    ensures IsOwnedFileForPrincipal(name, OwnerOf(c).account, OwnerOf(c).user)
            == IsOwnedFileForPrincipal(name, c.accountID, c.userID)
  {
    hide ParseOwnedFile, TrimSpace;
    TrimSpaceIdempotent(c.accountID);
    TrimSpaceIdempotent(c.userID);
  }

  lemma ReadableIsMine(name: string, document: Document, c: Credential)
    requires ContentOwner(name, document) == Some(OwnerOf(c)) && IsOwnedFileForPrincipal(name, c.accountID, c.userID)
    ensures JudgeFile(name, document, c) == Mine(name)
  {
    hide DecodeOwnedCredential, ParseOwnedFile, PrincipalHash, TrimSpace;
    var d := DecodeOwnedCredential(document).credential;
    BoundToTrimmed(name, c);
    BoundToTrimmed(name, d);
  }

  /** The entry under which a file is listed that was there at the listing and is a principal's now. */
  lemma EntryOf(view: HostView, snapshot: Files, files: Files, c: Credential, name: string, owner: Owner) returns (entry: HostEntry)
    requires Observed(view, snapshot, files, c) && BelongsTo(files, name, owner)
    ensures entry in view.files.value && IsListed(entry) && TrimSpace(entry.name) == name
    ensures IsOwnedFileForPrincipal(name, owner.account, owner.user)
  {
    hide FileOwner, ParseOwnedFile, PrincipalHash, TrimSpace, OneFileEach, NamesDistinct, Newcomer, Witnessed;
    assert BelongsTo(snapshot, name, owner);
    assert Lists(view.files.value, name);
    entry :| entry in view.files.value && IsListed(entry) && TrimSpace(entry.name) == name;
  }

  /** Why a name counts as the principal's: its file, as it was returned. */
  lemma MineEntry(view: HostView, snapshot: Files, files: Files, c: Credential, name: string) returns (entry: HostEntry)
    requires Observed(view, snapshot, files, c) && name in MineNames(view, view.files.value, c)
    ensures entry in view.files.value && IsListed(entry) && TrimSpace(entry.name) == name && TrimSpace(entry.authIndex) in view.physical
    ensures ContentOwner(name, view.physical[TrimSpace(entry.authIndex)].document) == Some(OwnerOf(c))
    ensures BelongsTo(snapshot, name, OwnerOf(c))
  {
    hide DecodeOwnedCredential, ParseOwnedFile, CanonicalName, PrincipalHash, IsSafeAuthFileName, StoreOk, Drifted,
         ListsAll;
    entry :| entry in view.files.value && Judge(view, entry, c) == Mine(name);
    var physical := view.physical[TrimSpace(entry.authIndex)];
    assert Witnessed(entry, physical, snapshot, files);
    assert Judge(view, entry, c) == JudgeFile(PhysicalName(entry, physical), physical.document, c);
  }

  /** Resolution from what a request has seen yields a name that may be written, whatever has changed meanwhile. */
  lemma ResolutionClaims(view: HostView, snapshot: Files, files: Files, c: Credential, preferred: string)
    requires Observed(view, snapshot, files, c) && IsValid(c)
    requires Resolution(view, c, preferred).Some?
    ensures Claim(files, c, Resolution(view, c, preferred).value)
  {
    hide FileOwner, ParseOwnedFile, IsValid, CanonicalName, PrincipalHash, IsSafeAuthFileName, Judge, Occupies, Lower,
         TrimSpace, ListsAll, Witnessed, NamesBound, NamesDistinct;
    var name := Resolution(view, c, preferred).value;
    var mine := MineNames(view, view.files.value, c);
    ValidHasIdentifiers(c);
    ResolvedNameIsBound(view, c, preferred);
    forall other | BelongsTo(files, other, OwnerOf(c))
      ensures other in mine && BelongsTo(snapshot, other, OwnerOf(c))
    {
      ListedFileIsMine(view, snapshot, files, c, other);
    }
    if name in mine {
      var _ := MineEntry(view, snapshot, files, c, name);
      MineIsDistinct(view, snapshot, files, c, name);
    } else {
      assert name == CanonicalName(c);
      NewNameIsFree(view, snapshot, files, c);
    }
  }

  lemma MineIsDistinct(view: HostView, snapshot: Files, files: Files, c: Credential, name: string)
    requires Observed(view, snapshot, files, c) && BelongsTo(snapshot, name, OwnerOf(c)) && IsOwnedFile(name)
    ensures forall other | other in files && EqualFold(other, name) :: other == name
    ensures forall owner | BelongsTo(files, name, owner) :: owner == OwnerOf(c)
  {
    hide FileOwner, ParseOwnedFile, CanonicalName, PrincipalHash, TrimSpace, ListsAll, Witnessed, NamesBound, OneFileEach;
    forall other | other in files && EqualFold(other, name)
      ensures other == name
    {
      RecognitionIgnoresCase(other, name);
      assert EqualFold(name, other);
      if other !in snapshot {
        assert false;
      }
    }
  }

  /** A new name is no listed file's, and at most a newcomer's. */
  lemma NewNameIsFree(view: HostView, snapshot: Files, files: Files, c: Credential)
    requires Observed(view, snapshot, files, c) && IsOwnedFile(CanonicalName(c))
    requires !AnyOccupies(view, view.files.value, c)
    ensures forall other | other in files && EqualFold(other, CanonicalName(c)) :: other == CanonicalName(c)
    ensures CanonicalName(c) !in snapshot
    ensures forall owner :: !BelongsTo(files, CanonicalName(c), owner)
  {
    hide FileOwner, ParseOwnedFile, CanonicalName, IsCandidate, PhysicalName, Witnessed, StoreOk, TrimSpace, Lower;
    forall other | other in snapshot
      ensures !EqualFold(other, CanonicalName(c))
    {
      assert Lists(view.files.value, other);
      var entry :| entry in view.files.value && IsListed(entry) && TrimSpace(entry.name) == other;
      assert !Occupies(view, entry, CanonicalName(c));
    }
    forall other | other in files && EqualFold(other, CanonicalName(c))
      ensures other == CanonicalName(c)
    {
      RecognitionIgnoresCase(other, CanonicalName(c));
      assert Newcomer(snapshot, c, other);
    }
  }

  /** A principal with a file is saved under that file's name, unless the host or another file makes the save refuse. */
  lemma ExistingNameIsReused(view: HostView, snapshot: Files, files: Files, c: Credential, preferred: string, name: string)
    requires Observed(view, snapshot, files, c) && IsValid(c)
    requires BelongsTo(files, name, OwnerOf(c))
    requires TrimSpace(preferred) == "" || (IsSafeAuthFileName(TrimSpace(preferred)) && EqualFold(name, TrimSpace(preferred)))
    ensures Resolution(view, c, preferred) == if AnyRefused(view, view.files.value, c) then None else Some(name)
  {
    hide DecodeOwnedCredential, ParseOwnedFile, IsValid, CanonicalName, PrincipalHash, IsSafeAuthFileName, Judge,
         Occupies, ListsAll, Witnessed, FileOwner, NamesBound, NamesDistinct;
    if !AnyRefused(view, view.files.value, c) {
      var mine := MineNames(view, view.files.value, c);
      ListedFileIsMine(view, snapshot, files, c, name);
      forall other | other in mine
        ensures other == name
      {
        var _ := MineEntry(view, snapshot, files, c, other);
        assert BelongsTo(snapshot, name, OwnerOf(c));
      }
      assert mine == {name};
    }
  }

  /** A principal without a file gets the canonical name, unless it is taken or a file makes the save refuse. */
  lemma NewPrincipalGetsCanonicalName(view: HostView, snapshot: Files, files: Files, c: Credential)
    requires Observed(view, snapshot, files, c) && IsValid(c)
    requires forall name :: !BelongsTo(snapshot, name, OwnerOf(c))
    ensures Resolution(view, c, "")
         == if AnyRefused(view, view.files.value, c) || AnyOccupies(view, view.files.value, c) then None else Some(CanonicalName(c))
  {
    hide DecodeOwnedCredential, ParseOwnedFile, IsValid, CanonicalName, PrincipalHash, IsSafeAuthFileName, Judge,
         Occupies, StoreOk, Drifted, ListsAll, Witnessed;
    TrimFixed("", SPACES);
    var mine := MineNames(view, view.files.value, c);
    forall name | name in mine
      ensures false
    {
      var _ := MineEntry(view, snapshot, files, c, name);
    }
    assert mine == {};
  }

  /**
   A principal whose hash collides with that of another principal's file is
   refused, for every digest; so isolation does not rest on the digest.
   */
  lemma CollidingPrincipalIsRefused(view: HostView, snapshot: Files, files: Files, c: Credential, preferred: string, name: string, owner: Owner)
    requires Observed(view, snapshot, files, c) && IsValid(c)
    requires BelongsTo(files, name, owner) && owner != OwnerOf(c)
    requires PrincipalHash(owner.account, owner.user) == PrincipalHash(c.accountID, c.userID)
    ensures Resolution(view, c, preferred).None?
  {
    hide IsValid, ParseOwnedFile, CanonicalName, PrincipalHash, DecodeOwnedCredential, IsSafeAuthFileName, StoreOk,
         Drifted, ListsAll, TrimSpace;
    var entry := EntryOf(view, snapshot, files, c, name, owner);
    ValidHasIdentifiers(c);
    HashOfTrimmed(owner.account, owner.user);
    HashOfTrimmed(c.accountID, c.userID);
    assert IsOwnedFileForPrincipal(name, c.accountID, c.userID);
    if TrimSpace(entry.authIndex) in view.physical {
      var physical := view.physical[TrimSpace(entry.authIndex)];
      assert Witnessed(entry, physical, snapshot, files);
      if Unreadable(physical.document) {
        UnreadableIsRefused(name, physical.document, c);
      } else {
        CollidingFileIsRefused(name, physical.document, c, owner);
      }
    }
    assert Judge(view, entry, c).Refused?;
    assert AnyRefused(view, view.files.value, c);
  }

  lemma CollidingFileIsRefused(name: string, document: Document, c: Credential, owner: Owner)
    requires ContentOwner(name, document) == Some(owner) && owner != OwnerOf(c)
    requires IsOwnedFileForPrincipal(name, owner.account, owner.user)
    requires IsOwnedFileForPrincipal(name, c.accountID, c.userID)
    ensures JudgeFile(name, document, c).Refused?
  {
    hide DecodeOwnedCredential, ParseOwnedFile, PrincipalHash, TrimSpace;
    HashOfTrimmed(c.accountID, c.userID);
    BoundToTrimmed(name, DecodeOwnedCredential(document).credential);
  }

  // ---------- preservation ----------

  /** Writing a claimed name for its principal keeps the directory sound and the claim. */
  lemma ClaimedWrite(files: Files, c: Credential, name: string, file: Stored)
    requires StoreOk(files) && Claim(files, c, name) && FileOwner(name, file) == Some(OwnerOf(c))
    ensures StoreOk(files[name := file]) && Claim(files[name := file], c, name)
  {
    hide FileOwner, ParseOwnedFile, PrincipalHash, Lower, TrimSpace;
    var files' := files[name := file];
    forall other, owner | BelongsTo(files', other, owner)
      ensures BelongsTo(files, other, owner) || (other == name && owner == OwnerOf(c))
    {
    }
    BoundToTrimmed(name, c);
    ClaimedNameIsAlone(files, c, name);
  }

  lemma ClaimedNameIsAlone(files: Files, c: Credential, name: string)
    requires StoreOk(files) && Claim(files, c, name)
    ensures forall other | other in files && (EqualFold(other, name) || EqualFold(name, other)) :: other == name
  {
  }

  /** A change that gives no plugin-owned file to anybody and adds no plugin name. */
  ghost predicate Harmless(files: Files, files': Files) {
    && (forall name, owner | BelongsTo(files', name, owner) :: BelongsTo(files, name, owner))
    && (forall name | name in files' && IsOwnedFile(name) :: name in files)
  }

  lemma HarmlessKeepsStore(files: Files, files': Files)
    requires StoreOk(files) && Harmless(files, files')
    ensures StoreOk(files')
  {
    hide FileOwner, ParseOwnedFile, PrincipalHash, Lower, TrimSpace;
    forall name, other | name in files' && other in files' && IsOwnedFile(name) && EqualFold(name, other)
      ensures name == other
    {
      RecognitionIgnoresCase(name, other);
    }
  }

  lemma HarmlessKeepsPhase(files: Files, files': Files, phase: Phase)
    requires Harmless(files, files') && PhaseOk(files, phase)
    ensures PhaseOk(files', phase)
  {
    hide FileOwner, ParseOwnedFile, PrincipalHash, Lower, TrimSpace, IsValid, StoreOk, ListsAll, Newcomer,
         CanonicalName, PhysicalName;
    match phase {
      case Locked =>
      case Planned(_, _) =>
      case Listed(_, _, _, _) =>
      case Resolved(c, name) => HarmlessKeepsClaim(files, files', c, name);
      case Published(c, name) => HarmlessKeepsClaim(files, files', c, name);
    }
  }

  lemma HarmlessKeepsClaim(files: Files, files': Files, c: Credential, name: string)
    requires Harmless(files, files') && Claim(files, c, name)
    ensures Claim(files', c, name)
  {
    hide FileOwner, ParseOwnedFile, PrincipalHash, Lower, TrimSpace;
    forall other | other in files' && EqualFold(other, name)
      ensures other == name
    {
      RecognitionIgnoresCase(other, name);
    }
  }

  ghost predicate IsWatcher(action: Action) {
    action.Remove? || action.Garble? || action.Restore? || action.Corrupt? || action.Outside?
  }

  /** The watcher's ways with a file leave it its owner's or make it nobody's. */
  lemma WatcherGivesNothing(files: Files, action: Action)
    requires (action.Garble? || action.Restore? || action.Corrupt?) && action.name in files
    requires action.Garble? ==> Unreadable(action.document)
    requires action.Restore? ==> ContentOwner(action.name, action.document).Some?
                                 && ContentOwner(action.name, action.document) == FileOwner(action.name, files[action.name])
    requires action.Corrupt? ==> ContentOwner(action.name, action.document).None?
    ensures var was := FileOwner(action.name, files[action.name]);
            && (action.Garble? ==> FileOwner(action.name, Stored(action.document, was)) == was)
            && (action.Restore? ==> FileOwner(action.name, Whole(action.document)) == was)
            && (action.Corrupt? ==> FileOwner(action.name, Whole(action.document)).None?)
  {
    hide DecodeOwnedCredential, OwnerOf, ParseOwnedFile;
  }

  lemma WatcherStep(s: State, action: Action)
    requires Inv(s) && Enabled(s, action) && IsWatcher(action)
    ensures Inv(Apply(s, action))
  {
    hide FileOwner, ContentOwner, Unreadable, ParseOwnedFile, IsValid, Marshal, StoreOk, PrincipalHash, TrimSpace,
         Lower, PhaseOk;
    var files' := Apply(s, action).files;
    OnlyPluginNamesAreOwned();
    if action.Garble? || action.Restore? || action.Corrupt? {
      WatcherGivesNothing(s.files, action);
    }
    assert Harmless(s.files, files');
    HarmlessKeepsStore(s.files, files');
    forall id | id in s.phases
      ensures PhaseOk(files', s.phases[id])
    {
      HarmlessKeepsPhase(s.files, files', s.phases[id]);
    }
  }

  lemma IntruderStep(s: State, action: Action)
    requires Inv(s) && Enabled(s, action) && action.Intrude?
    ensures Inv(Apply(s, action))
  {
    hide FileOwner, ParseOwnedFile, PrincipalHash, TrimSpace, Lower, PhaseOk, KeepsClear, StoreOk;
    var name, file := action.name, action.file;
    IntruderKeepsStore(s.files, name, file);
    forall id | id in s.phases
      ensures PhaseOk(s.files[name := file], s.phases[id])
    {
      IntruderKeepsPhase(s.files, s.phases[id], name, file);
    }
  }

  lemma IntruderKeepsStore(files: Files, name: string, file: Stored)
    requires StoreOk(files) && IsOwnedFile(name) && forall other | other in files :: !EqualFold(other, name)
    requires FileOwner(name, file).Some? ==> FirstFile(files, name, FileOwner(name, file).value)
    ensures StoreOk(files[name := file])
  {
    hide FileOwner, ParseOwnedFile, PrincipalHash, TrimSpace, Lower;
    var files' := files[name := file];
    forall other, owner | BelongsTo(files', other, owner)
      ensures BelongsTo(files, other, owner) || (other == name && FileOwner(name, file) == Some(owner))
    {
    }
  }

  lemma IntruderKeepsPhase(files: Files, phase: Phase, name: string, file: Stored)
    requires PhaseOk(files, phase) && KeepsClear(phase, name) && FileOwner(name, file).None?
    ensures PhaseOk(files[name := file], phase)
  {
    hide FileOwner, ParseOwnedFile, IsValid, PrincipalHash, TrimSpace, Lower, StoreOk, ListsAll, Newcomer,
         CanonicalName, PhysicalName, IsListed, IsOwnedFile, Witnessed;
    var files' := files[name := file];
    forall other, owner | BelongsTo(files', other, owner)
      ensures BelongsTo(files, other, owner)
    {
    }
    match phase {
      case Listed(c, _, view, snapshot) =>
        forall entry | entry in view.files.value && IsListed(entry) && TrimSpace(entry.authIndex) in view.physical
          ensures Witnessed(entry, view.physical[TrimSpace(entry.authIndex)], snapshot, files')
        {
          WitnessedStill(entry, view.physical[TrimSpace(entry.authIndex)], snapshot, files, files');
        }
      case _ =>
    }
  }

  lemma WitnessedStill(entry: HostEntry, physical: Physical, snapshot: Files, files: Files, files': Files)
    requires Witnessed(entry, physical, snapshot, files)
    requires forall name, owner | BelongsTo(files', name, owner) :: BelongsTo(files, name, owner)
    ensures Witnessed(entry, physical, snapshot, files')
  {
    hide FileOwner, PhysicalName, TrimSpace;
  }

  lemma WriteStep(s: State, action: Action)
    requires Inv(s) && Enabled(s, action) && (action.WriteStaging? || action.WriteFinal?)
    ensures Inv(Apply(s, action))
  {
    hide FileOwner, ParseOwnedFile, IsValid, Marshal, StoreOk, PrincipalHash, Staged, OwnerOf, Claim, Observed;
    var c, name := s.phases[action.id].c, s.phases[action.id].name;
    ClaimedNameIsOwned(s.files, c, name);
    SavedFileOwner(c, name);
    ClaimedWrite(s.files, c, name, Whole(if action.WriteFinal? then Marshal(c) else Marshal(Staged(c))));
  }

  lemma RepublishStep(s: State, action: Action)
    requires Inv(s) && Enabled(s, action) && action.Republish?
    ensures Inv(Apply(s, action))
  {
    hide FileOwner, ContentOwner, Unreadable, ParseOwnedFile, IsValid, StoreOk, PrincipalHash, OwnerOf, Claim, Observed;
    ContentDecides(action.name, Whole(action.document));
    ClaimedWrite(s.files, s.phases[action.id].c, action.name, Whole(action.document));
  }

  lemma ClaimedNameIsOwned(files: Files, c: Credential, name: string)
    requires Claim(files, c, name)
    ensures IsOwnedFile(name)
  {
    hide ParseOwnedFile;
  }

  lemma ListStep(s: State, action: Action)
    requires Inv(s) && Enabled(s, action) && action.List?
    ensures Inv(Apply(s, action))
  {
    hide FileOwner, IsValid, Claim, StoreOk, ListsAll, IsListed, TrimSpace;
  }

  lemma GetStep(s: State, action: Action)
    requires Inv(s) && Enabled(s, action) && action.Get?
    ensures Inv(Apply(s, action))
  {
    hide FileOwner, IsValid, Claim, StoreOk, ListsAll, Newcomer, PhysicalName, TrimSpace, IsListed, Observed, Returned;
    var seen := s.phases[action.id];
    GotIsObserved(seen.view, seen.snapshot, s.files, seen.c, action.index, action.physical);
  }

  lemma GotIsObserved(view: HostView, snapshot: Files, files: Files, c: Credential, index: string, physical: Physical)
    requires Observed(view, snapshot, files, c) && Returned(view.files.value, index, physical, files)
    ensures Observed(view.(physical := view.physical[index := physical]), snapshot, files, c)
  {
    hide FileOwner, ContentOwner, Unreadable, StoreOk, ListsAll, Newcomer, PhysicalName, TrimSpace, IsListed, IsOwnedFile;
    var view' := view.(physical := view.physical[index := physical]);
    forall entry | entry in view'.files.value && IsListed(entry) && TrimSpace(entry.authIndex) in view'.physical
      ensures Witnessed(entry, view'.physical[TrimSpace(entry.authIndex)], snapshot, files)
    {
      if TrimSpace(entry.authIndex) == index {
        var name := TrimSpace(entry.name);
        ContentDecides(name, files[name]);
      }
    }
  }

  lemma ContentDecides(name: string, file: Stored)
    ensures ContentOwner(name, file.document).Some? ==> FileOwner(name, file) == ContentOwner(name, file.document)
    ensures FileOwner(name, file) == ContentOwner(name, file.document) || Unreadable(file.document)
  {
    hide DecodeOwnedCredential, OwnerOf;
  }

  lemma ChooseStep(s: State, action: Action)
    requires Inv(s) && Enabled(s, action) && action.Choose?
    ensures Inv(Apply(s, action))
  {
    hide IsValid, Claim, StoreOk, Resolution, Observed;
    var seen := s.phases[action.id];
    if Resolution(seen.view, seen.c, seen.preferred).Some? {
      ResolutionClaims(seen.view, seen.snapshot, s.files, seen.c, seen.preferred);
    }
  }

  lemma StepKeepsInv(s: State, action: Action)
    requires Inv(s) && Enabled(s, action)
    ensures Inv(Apply(s, action))
  {
    hide IsValid, Claim, StoreOk, Resolution, Observed, FileOwner, ImportPlan, RevalidationPlan, RevalidationTarget,
         Returned, ListsAll, KeepsClear, FirstFile;
    match action {
      case List(_, _) => ListStep(s, action);
      case Get(_, _, _) => GetStep(s, action);
      case Choose(_) => ChooseStep(s, action);
      case WriteStaging(_) => WriteStep(s, action);
      case WriteFinal(_) => WriteStep(s, action);
      case Remove(_) => WatcherStep(s, action);
      case Garble(_, _) => WatcherStep(s, action);
      case Restore(_, _) => WatcherStep(s, action);
      case Republish(_, _, _) => RepublishStep(s, action);
      case Corrupt(_, _) => WatcherStep(s, action);
      case Outside(_, _) => WatcherStep(s, action);
      case Intrude(_, _) => IntruderStep(s, action);
      case _ =>
    }
  }
}
