/** The private-file replacement as a sequence of file-system steps, any of which may fail or be the last. */
module AtomicReplace {

  /** A directory entry; `synced` says the content has reached the disk. */
  datatype Node = File(content: string, mode: nat, synced: bool) | Link(target: string)

  type Entries = map<string, Node>

  const PRIVATE_MODE: nat := 0x180  // 0600 in octal

  /** Which steps work, and how much of the content a failing write leaves behind. */
  datatype Luck = Luck(create: bool, chmod: bool, write: bool, sync: bool, close: bool, rename: bool, remove: bool, written: nat)

  predicate AllWork(luck: Luck) {
    luck.create && luck.chmod && luck.write && luck.sync && luck.close && luck.rename
  }

  /** What a crash may leave: the target is as before or complete, and nothing else but the temporary differs. */
  ghost predicate Safe(before: Entries, now: Entries, path: string, temporary: string, raw: string) {
    && (now == before[path := File(raw, PRIVATE_MODE, true)]
        || now - {temporary} == before)
  }

  class Directory {
    var entries: Entries
    /** Every state the directory has been in. */
    ghost var seen: seq<Entries>

    constructor (entries: Entries)
      ensures this.entries == entries && seen == [entries]
    {
      this.entries := entries;
      seen := [entries];
    }

    method Put(name: string, node: Node)
      modifies this
      ensures entries == old(entries)[name := node] && seen == old(seen) + [entries]
    {
      entries := entries[name := node];
      seen := seen + [entries];
    }

    method Remove(name: string)
      modifies this
      ensures entries == old(entries) - {name} && seen == old(seen) + [entries]
    {
      entries := entries - {name};
      seen := seen + [entries];
    }

    /** Moves the entry `from` over `to` in one step, whatever `to` was. */
    method Rename(from: string, to: string)
      requires from in entries && from != to
      modifies this
      ensures entries == (old(entries) - {from})[to := old(entries)[from]] && seen == old(seen) + [entries]
    {
      entries := (entries - {from})[to := entries[from]];
      seen := seen + [entries];
    }

    /** `temporary` is the unused name the operating system picks. */
    method ReplaceFile0600(path: string, temporary: string, raw: string, luck: Luck) returns (ok: bool)
      requires temporary !in entries && temporary != path
      modifies this
      ensures ok <==> AllWork(luck)
      ensures ok ==> entries == old(entries)[path := File(raw, 0x180, true)]
      ensures !ok && (luck.remove || !luck.create) ==> entries == old(entries)
      ensures old(seen) <= seen
      ensures forall i | |old(seen)| <= i < |seen| :: Safe(old(entries), seen[i], path, temporary, raw)
    {
      if !luck.create {
        return false;
      }
      Put(temporary, File("", PRIVATE_MODE, false));
      ok := FillAndRename(path, temporary, raw, luck);
      if luck.remove && temporary in entries {
        Remove(temporary);
      }
    }

    method FillAndRename(path: string, temporary: string, raw: string, luck: Luck) returns (ok: bool)
      requires temporary in entries && entries[temporary] == File("", PRIVATE_MODE, false) && temporary != path && luck.create
      modifies this
      ensures ok <==> AllWork(luck)
      ensures ok ==> entries == (old(entries) - {temporary})[path := File(raw, PRIVATE_MODE, true)]
      ensures !ok ==> entries.Keys == old(entries).Keys && entries - {temporary} == old(entries) - {temporary}
      ensures old(seen) <= seen
      ensures forall i | |old(seen)| <= i < |seen| :: Safe(old(entries) - {temporary}, seen[i], path, temporary, raw)
    {
      if !luck.chmod {
        return false;
      }
      Put(temporary, entries[temporary].(mode := PRIVATE_MODE));
      if !luck.write {
        var part := if luck.written < |raw| then raw[..luck.written] else raw;
        Put(temporary, entries[temporary].(content := part));
        return false;
      }
      Put(temporary, entries[temporary].(content := raw));
      if !luck.sync {
        return false;
      }
      Put(temporary, entries[temporary].(synced := true));
      if !luck.close {
        return false;
      }
      if !luck.rename {
        return false;
      }
      Rename(temporary, path);
      return true;
    }
  }

  /**
   A crash-safe state, seen through any name but the temporary: the target is
   its old node or the complete private file, and every other entry, including
   what a symbolic link under the target's name pointed to, is untouched.
   */
  lemma CrashLeavesOldOrNew(before: Entries, now: Entries, path: string, temporary: string, raw: string, name: string)
    requires Safe(before, now, path, temporary, raw) && temporary !in before && name != temporary
    ensures name != path ==> (name in now <==> name in before) && (name in now ==> now[name] == before[name])
    ensures name == path ==> (name in now && now[name] == File(raw, 0x180, true))
                             || ((name in now <==> name in before) && (name in now ==> now[name] == before[name]))
  {
    if now - {temporary} == before {
      assert name in now <==> name in now - {temporary};
      assert name in now ==> now[name] == (now - {temporary})[name];
    }
  }
}
