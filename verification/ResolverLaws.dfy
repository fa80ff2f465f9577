/** Every way a resolution fails and every name it gives, entry by entry, for any answers of the host. */
module ResolverLaws {
  import opened Text
  import opened Platform
  import opened Principal
  import opened OwnedNames
  import opened Credentials
  import opened Resolver

  /** A stored file of the codex provider, with a plugin name, or in the way of the name to create. */
  predicate LooksLikeOurs(c: Credential, entry: HostEntry) {
    var name := TrimSpace(entry.name);
    var provider := if TrimSpace(entry.provider) != "" then TrimSpace(entry.provider) else TrimSpace(entry.typ);
    && !entry.runtimeOnly && name != ""
    && (EqualFold(provider, "codex") || IsOwnedFile(name) || EqualFold(name, FileName(c.accountID, c.userID, c.email, c.planType)))
  }

  /** The host has an index for the entry and returns a file for it. */
  predicate IsReturned(view: HostView, entry: HostEntry) {
    TrimSpace(entry.authIndex) != "" && TrimSpace(entry.authIndex) in view.physical
  }

  function DocumentOf(view: HostView, entry: HostEntry): Document
    requires IsReturned(view, entry)
  {
    view.physical[TrimSpace(entry.authIndex)].document
  }

  /** The returned file's own name, or the listed one if it has none. */
  function NameOf(view: HostView, entry: HostEntry): string
    requires IsReturned(view, entry)
  {
    var own := TrimSpace(view.physical[TrimSpace(entry.authIndex)].name);
    if own != "" then own else TrimSpace(entry.name)
  }

  /** The file holds a credential of the principal of `c`. */
  predicate HoldsCredentialOf(c: Credential, document: Document) {
    var decoded := DecodeOwnedCredential(document);
    && decoded.Owned?
    && TrimSpace(decoded.credential.accountID) == TrimSpace(c.accountID) != ""
    && TrimSpace(decoded.credential.userID) == TrimSpace(c.userID) != ""
  }

  /** A plugin file under a name that is not its principal's, whoever that is. */
  predicate IsMisnamed(name: string, document: Document) {
    var decoded := DecodeOwnedCredential(document);
    decoded.Owned? && IsOwnedFile(name) && !IsOwnedFileForPrincipal(name, decoded.credential.accountID, decoded.credential.userID)
  }

  /** A plugin file that carries the markers and does not decode, whoever's it is. */
  predicate IsBroken(name: string, document: Document) {
    DecodeOwnedCredential(document).OwnedMalformed? && IsOwnedFile(name)
  }

  /** The entry alone makes the resolution fail. */
  ghost predicate Fails(view: HostView, c: Credential, entry: HostEntry) {
    && LooksLikeOurs(c, entry)
    && (|| !IsReturned(view, entry)
        || var name, document := NameOf(view, entry), DocumentOf(view, entry);
           || !IsSafeAuthFileName(name) || IsMisnamed(name, document) || IsBroken(name, document)
           || (&& ParseOwnedFile(name) == Some(PrincipalHash(c.accountID, c.userID))
               && !DecodeOwnedCredential(document).Foreign? && !HoldsCredentialOf(c, document)))
  }

  /** The entry's file is one of the principal's plugin files, under this name. */
  ghost predicate Holds(view: HostView, c: Credential, entry: HostEntry, name: string) {
    && LooksLikeOurs(c, entry) && IsReturned(view, entry) && NameOf(view, entry) == name
    && IsOwnedFile(name) && HoldsCredentialOf(c, DocumentOf(view, entry))
  }

  ghost predicate HeldAs(view: HostView, c: Credential, name: string)
    requires view.files.Some?
  {
    exists entry | entry in view.files.value :: Holds(view, c, entry, name)
  }

  /** The entry, or the file behind it, has the name the resolution would create, up to case. */
  ghost predicate Takes(view: HostView, c: Credential, entry: HostEntry) {
    var canonical := FileName(c.accountID, c.userID, c.email, c.planType);
    && !entry.runtimeOnly && TrimSpace(entry.name) != ""
    && (EqualFold(TrimSpace(entry.name), canonical)
        || (LooksLikeOurs(c, entry) && IsReturned(view, entry) && EqualFold(NameOf(view, entry), canonical)))
  }

  lemma FailsIsRefused(view: HostView, c: Credential, entry: HostEntry)
    ensures Fails(view, c, entry) <==> Judge(view, entry, c).Refused?
  {
    hide DecodeOwnedCredential, ParseOwnedFile, PrincipalHash, TrimSpace, IsSafeAuthFileName, FileName, Lower;
  }

  lemma HoldsIsMine(view: HostView, c: Credential, entry: HostEntry, name: string)
    requires !Fails(view, c, entry)
    ensures Holds(view, c, entry, name) <==> Judge(view, entry, c) == Mine(name)
  {
    hide DecodeOwnedCredential, ParseOwnedFile, PrincipalHash, TrimSpace, IsSafeAuthFileName, FileName, Lower;
  }

  lemma TakesIsOccupies(view: HostView, c: Credential, entry: HostEntry)
    requires !Fails(view, c, entry)
    ensures Takes(view, c, entry) <==> Occupies(view, entry, CanonicalName(c))
  {
    hide DecodeOwnedCredential, ParseOwnedFile, PrincipalHash, TrimSpace, IsSafeAuthFileName, FileName, Lower;
  }

  // ---------- the whole rule ----------

  /** When `name` is the answer. */
  ghost predicate Answers(view: HostView, c: Credential, preferred: string, name: string) {
    && view.files.Some?
    && (TrimSpace(preferred) == "" || IsSafeAuthFileName(TrimSpace(preferred)))
    && (forall entry | entry in view.files.value :: !Fails(view, c, entry))
    && (forall a, b | HeldAs(view, c, a) && HeldAs(view, c, b) && EqualFold(a, b) :: a == b)
    && (if TrimSpace(preferred) != "" then HeldAs(view, c, name) && EqualFold(name, TrimSpace(preferred))
        else if exists held :: HeldAs(view, c, held) then
          HeldAs(view, c, name) && forall held | HeldAs(view, c, held) :: held == name
        else
          && name == FileName(c.accountID, c.userID, c.email, c.planType)
          && forall entry | entry in view.files.value :: !Takes(view, c, entry))
  }

  lemma HeldIsMine(view: HostView, c: Credential)
    requires view.files.Some? && forall entry | entry in view.files.value :: !Fails(view, c, entry)
    ensures forall name :: HeldAs(view, c, name) <==> name in MineNames(view, view.files.value, c)
  {
    hide Fails, Holds, Judge;
    forall name
      ensures HeldAs(view, c, name) <==> name in MineNames(view, view.files.value, c)
    {
      forall entry | entry in view.files.value
        ensures Holds(view, c, entry, name) <==> Judge(view, entry, c) == Mine(name)
      {
        HoldsIsMine(view, c, entry, name);
      }
    }
  }

  lemma EntriesAgree(view: HostView, c: Credential)
    requires view.files.Some?
    ensures AnyRefused(view, view.files.value, c) <==> exists entry | entry in view.files.value :: Fails(view, c, entry)
    ensures !AnyRefused(view, view.files.value, c) ==>
              (AnyOccupies(view, view.files.value, c) <==> exists entry | entry in view.files.value :: Takes(view, c, entry))
  {
    hide Fails, Takes, Judge, Occupies, CanonicalName;
    forall entry | entry in view.files.value
      ensures Fails(view, c, entry) <==> Judge(view, entry, c).Refused?
      ensures !Fails(view, c, entry) ==> (Takes(view, c, entry) <==> Occupies(view, entry, CanonicalName(c)))
    {
      FailsIsRefused(view, c, entry);
      if !Fails(view, c, entry) {
        TakesIsOccupies(view, c, entry);
      }
    }
  }

  lemma ChoiceExactly(mine: set<string>, preferred: string, occupied: bool, canonical: string, name: string)
    requires !CaseClash(mine)
    ensures Choice(mine, preferred, occupied, canonical) == Some(name)
            <==> if preferred != "" then name in mine && EqualFold(name, preferred)
                 else if mine != {} then mine == {name}
                 else !occupied && name == canonical
  {
    hide Lower;
    assert |{name}| == 1;
    if preferred == "" && mine != {} {
      if |mine| <= 1 {
        var only :| only in mine;
        OneName(mine, only);
      }
    }
  }

  /** A resolution gives a name exactly when the rule above does. */
  lemma ResolutionExactly(view: HostView, c: Credential, preferred: string, name: string)
    ensures Resolution(view, c, preferred) == Some(name) <==> Answers(view, c, preferred, name)
  {
    hide Fails, Takes, Holds, HeldAs, Judge, Occupies, AnyRefused, AnyOccupies, MineNames, IsSafeAuthFileName, TrimSpace, Lower, FileName;
    if view.files.Some? {
      EntriesAgree(view, c);
      if !AnyRefused(view, view.files.value, c) {
        HeldIsMine(view, c);
        var mine := MineNames(view, view.files.value, c);
        if !CaseClash(mine) {
          ChoiceExactly(mine, TrimSpace(preferred), AnyOccupies(view, view.files.value, c), CanonicalName(c), name);
        }
        assert (exists held :: HeldAs(view, c, held)) <==> mine != {};
        assert mine == {name} <==> name in mine && forall held | held in mine :: held == name;
      }
    }
  }

  // ---------- the fail-closed exits ----------

  /** With several files of the principal and none preferred, the resolution fails. */
  lemma SeveralFilesRefused(view: HostView, c: Credential, preferred: string, one: HostEntry, other: HostEntry)
    requires view.files.Some? && one in view.files.value && other in view.files.value
    requires IsReturned(view, one) && Holds(view, c, one, NameOf(view, one))
    requires IsReturned(view, other) && Holds(view, c, other, NameOf(view, other))
    requires NameOf(view, one) != NameOf(view, other) && TrimSpace(preferred) == ""
    ensures Resolution(view, c, preferred).None?
  {
    hide Fails, Takes, Holds, Resolution, TrimSpace, IsSafeAuthFileName, Lower, FileName;
    assert HeldAs(view, c, NameOf(view, one)) && HeldAs(view, c, NameOf(view, other));
    if Resolution(view, c, preferred).Some? {
      ResolutionExactly(view, c, preferred, Resolution(view, c, preferred).value);
    }
  }

  /** Two files of the principal whose names differ only by case make it fail, whatever is preferred. */
  lemma CaseTwinsRefused(view: HostView, c: Credential, preferred: string, one: HostEntry, other: HostEntry)
    requires view.files.Some? && one in view.files.value && other in view.files.value
    requires IsReturned(view, one) && Holds(view, c, one, NameOf(view, one))
    requires IsReturned(view, other) && Holds(view, c, other, NameOf(view, other))
    requires NameOf(view, one) != NameOf(view, other) && EqualFold(NameOf(view, one), NameOf(view, other))
    ensures Resolution(view, c, preferred).None?
  {
    hide Fails, Takes, Holds, Resolution, TrimSpace, IsSafeAuthFileName, Lower, FileName;
    assert HeldAs(view, c, NameOf(view, one)) && HeldAs(view, c, NameOf(view, other));
    if Resolution(view, c, preferred).Some? {
      ResolutionExactly(view, c, preferred, Resolution(view, c, preferred).value);
    }
  }

  /** So does one misnamed or broken plugin file, whoever's it is, and one entry the host cannot return a file for. */
  lemma BadFileRefuses(view: HostView, c: Credential, preferred: string, entry: HostEntry)
    requires view.files.Some? && entry in view.files.value && LooksLikeOurs(c, entry)
    requires || !IsReturned(view, entry)
             || !IsSafeAuthFileName(NameOf(view, entry))
             || IsMisnamed(NameOf(view, entry), DocumentOf(view, entry))
             || IsBroken(NameOf(view, entry), DocumentOf(view, entry))
    ensures Resolution(view, c, preferred).None?
  {
    hide Takes, Holds, Resolution, TrimSpace, IsSafeAuthFileName, IsMisnamed, IsBroken, LooksLikeOurs, Lower, FileName, ParseOwnedFile, PrincipalHash;
    assert Fails(view, c, entry);
    if Resolution(view, c, preferred).Some? {
      ResolutionExactly(view, c, preferred, Resolution(view, c, preferred).value);
    }
  }

  /** A preferred name that is unsafe, or that none of the principal's files has, is not answered with another one. */
  lemma PreferredOrNothing(view: HostView, c: Credential, preferred: string)
    requires TrimSpace(preferred) != "" && view.files.Some?
    requires !IsSafeAuthFileName(TrimSpace(preferred)) || forall name | HeldAs(view, c, name) :: !EqualFold(name, TrimSpace(preferred))
    ensures Resolution(view, c, preferred).None?
  {
    hide Fails, Takes, Holds, Resolution, TrimSpace, IsSafeAuthFileName, Lower, FileName;
    if Resolution(view, c, preferred).Some? {
      ResolutionExactly(view, c, preferred, Resolution(view, c, preferred).value);
    }
  }
}
