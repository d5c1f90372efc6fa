/**
 Create-only publication (cmd/witself-control-plane/billing_rollout_inventory.go,
 writeAtomicPrivateBillingRolloutFile): a staged inode, a hard link, and a failure, a crash or
 another process at any step.
 */
module BillingPublish {
  import opened Prelude

  type Bytes = seq<bv8>

  datatype File = File(data: Bytes, synced: bool)

  /** An ordinary name, or "." + base + ".tmp-" + random hex. */
  datatype Name = Plain(text: string) | Staged(base: string, hex: string)

  /** The directory entries, the inodes, and whether the directory itself has been synchronized. */
  datatype State = State(names: map<Name, nat>, files: map<nat, File>, dirSynced: bool)

  /** The text of a directory entry. */
  function TextOf(name: Name): string {
    match name
    case Plain(text) => text
    case Staged(base, hex) => "." + base + ".tmp-" + hex
  }

  predicate IsStaging(base: string, name: Name) {
    name.Staged? && name.base == base
  }

  /** A staging name is never spelled as the output it stages. */
  lemma StagingIsNotOutput(base: string, hex: string)
    ensures TextOf(Staged(base, hex)) != TextOf(Plain(base))
  {
  }

  predicate Sound(s: State) {
    forall n :: n in s.names ==> s.names[n] in s.files
  }

  // ------------------------------------------------------------ what every state keeps

  /** The output name, where it is new and not another process's, names exactly the data, synchronized. */
  predicate Complete(was: State, s: State, base: string, data: Bytes, strangers: set<nat>) {
    Plain(base) in s.names && Plain(base) !in was.names && s.names[Plain(base)] !in strangers ==>
      s.names[Plain(base)] in s.files && s.files[s.names[Plain(base)]] == File(data, true)
  }

  /** Whatever was there stays as it was, and only the output and a staging name may be new. */
  predicate Kept(was: State, s: State, base: string) {
    && (forall n :: n in was.names ==> n in s.names && s.names[n] == was.names[n])
    && (forall i :: i in was.files ==> i in s.files && s.files[i] == was.files[i])
    && (forall n :: n in s.names ==> n in was.names || n == Plain(base) || IsStaging(base, n))
  }

  predicate Fine(was: State, s: State, base: string, data: Bytes, strangers: set<nat>) {
    Kept(was, s, base) && Complete(was, s, base, data, strangers)
  }

  /** Success: one entry more, for a synchronized inode holding the data, and the directory is synchronized. */
  predicate Published(was: State, s: State, base: string, data: Bytes) {
    && Plain(base) !in was.names && Plain(base) in s.names
    && s.names == was.names[Plain(base) := s.names[Plain(base)]]
    && s.names[Plain(base)] !in was.files && s.names[Plain(base)] in s.files && s.files[s.names[Plain(base)]] == File(data, true)
    && s.dirSynced
  }

  /** Failure without residue: the entries of before, but for one another process may have made. */
  predicate Restored(was: State, s: State, base: string, strangers: set<nat>) {
    || s.names == was.names
    || (Plain(base) !in was.names && Plain(base) in s.names && s.names[Plain(base)] in strangers && s.names == was.names[Plain(base) := s.names[Plain(base)]])
  }

  /** The output name is this writer's and complete. */
  predicate Linked(was: State, s: State, base: string, data: Bytes, strangers: set<nat>) {
    && Plain(base) !in was.names && Plain(base) in s.names
    && var ino := s.names[Plain(base)];
       ino !in was.files && ino !in strangers && ino in s.files && s.files[ino] == File(data, true)
  }

  lemma PutAndTakeBack(names: map<Name, nat>, n: Name, i: nat)
    requires n !in names
    ensures names[n := i] - {n} == names
  {
  }

  lemma PutTwoTakeBack(names: map<Name, nat>, t: Name, b: Name, i: nat)
    requires t !in names && b !in names && t != b
    ensures names[t := i][b := i] - {t} == names[b := i]
    ensures names[t := i][b := i] - {b} == names[t := i]
    ensures names[t := i] - {t} == names
  {
  }

  // ------------------------------------------------------------ the directory

  /**
   System calls on one directory. Each may fail at will; `history` holds every state a crash could
   find, `strangers` the inodes another process made, `refused` counts the calls that refused, and
   `taken` the staging names that were taken.
   */
  class Directory {
    var fs: State
    var next: nat
    ghost var history: seq<State>
    ghost var strangers: set<nat>
    ghost var refused: nat
    ghost var taken: nat

    ghost predicate Valid()
      reads this`fs, this`next, this`strangers
    {
      && Sound(fs) && (forall i :: i in fs.files ==> i < next)
      && (forall i :: i in strangers ==> i < next)
    }

    /** Every state since `from` is fine. */
    ghost predicate AllFine(from: nat, was: State, base: string, data: Bytes)
      reads this`history, this`strangers
    {
      from <= |history| && forall k :: from <= k < |history| ==> Fine(was, history[k], base, data, strangers)
    }

    /** open with O_CREAT and O_EXCL; the error says whether the name exists. */
    method CreateExclusive(name: Name) returns (r: Result<nat, bool>)
      requires Valid()
      modifies this
      ensures Valid() && strangers == old(strangers)
      ensures r.Ok? ==> name !in old(fs.names) && r.value !in old(fs.files) && r.value !in strangers
                        && fs == State(old(fs.names)[name := r.value], old(fs.files)[r.value := File([], false)], false)
                        && history == old(history) + [fs]
      ensures r.Err? ==> fs == old(fs) && history == old(history)
      ensures refused == old(refused) + (if r == Err(false) then 1 else 0) && taken == old(taken) + if r == Err(true) then 1 else 0
    {
      var works: bool := *;
      if name in fs.names {
        taken := taken + 1;
        return Err(true);
      }
      if !works {
        refused := refused + 1;
        return Err(false);
      }
      var ino := next;
      fs := State(fs.names[name := ino], fs.files[ino := File([], false)], false);
      next := next + 1;
      history := history + [fs];
      return Ok(ino);
    }

    /** A write that fails may have written a part. */
    method Write(ino: nat, data: Bytes) returns (ok: bool, ghost part: Bytes)
      requires Valid() && ino in fs.files
      modifies this
      ensures Valid() && strangers == old(strangers) && history == old(history) + [fs]
      ensures fs == old(fs).(files := old(fs).files[ino := File(part, false)]) && (ok ==> part == data)
      ensures refused == old(refused) + (if ok then 0 else 1) && taken == old(taken)
    {
      var n: nat := *;
      ok := !(0 <= n < |data|);
      var written := if ok then data else data[..n];
      part := written;
      fs := fs.(files := fs.files[ino := File(written, false)]);
      history := history + [fs];
      if !ok { refused := refused + 1; }
    }

    method Sync(ino: nat) returns (ok: bool)
      requires Valid() && ino in fs.files
      modifies this
      ensures Valid() && strangers == old(strangers)
      ensures if ok then fs == old(fs).(files := old(fs).files[ino := File(old(fs).files[ino].data, true)])
                         && history == old(history) + [fs]
              else fs == old(fs) && history == old(history)
      ensures refused == old(refused) + (if ok then 0 else 1) && taken == old(taken)
    {
      ok := *;
      if ok {
        fs := fs.(files := fs.files[ino := File(fs.files[ino].data, true)]);
        history := history + [fs];
      }
      if !ok { refused := refused + 1; }
    }

    /** link never replaces a name. */
    method Link(from: Name, to: Name) returns (ok: bool)
      requires Valid() && from in fs.names
      modifies this
      ensures Valid() && strangers == old(strangers)
      ensures if ok then to !in old(fs.names) && fs == State(old(fs.names)[to := old(fs.names)[from]], old(fs.files), false)
                         && history == old(history) + [fs]
              else fs == old(fs) && history == old(history)
      ensures refused == old(refused) + (if ok then 0 else 1) && taken == old(taken)
    {
      ok := *;
      if to in fs.names { ok := false; }
      if ok {
        fs := State(fs.names[to := fs.names[from]], fs.files, false);
        history := history + [fs];
      }
      if !ok { refused := refused + 1; }
    }

    method Remove(name: Name) returns (ok: bool)
      requires Valid()
      modifies this
      ensures Valid() && strangers == old(strangers)
      ensures if ok then fs == State(old(fs.names) - {name}, old(fs.files), false) && history == old(history) + [fs]
              else fs == old(fs) && history == old(history)
      ensures refused == old(refused) + (if ok then 0 else 1) && taken == old(taken)
    {
      ok := *;
      if ok {
        fs := State(fs.names - {name}, fs.files, false);
        history := history + [fs];
      }
      if !ok { refused := refused + 1; }
    }

    method SyncDirectory() returns (ok: bool)
      requires Valid()
      modifies this
      ensures Valid() && strangers == old(strangers)
      ensures if ok then fs == old(fs).(dirSynced := true) && history == old(history) + [fs]
              else fs == old(fs) && history == old(history)
      ensures refused == old(refused) + (if ok then 0 else 1) && taken == old(taken)
    {
      ok := *;
      if ok {
        fs := fs.(dirSynced := true);
        history := history + [fs];
      }
      if !ok { refused := refused + 1; }
    }

    /** A call that changes no entry and no data: chmod, close, opening the directory, drawing random bytes. */
    method Ask() returns (ok: bool)
      requires Valid()
      modifies this`refused
      ensures Valid()
      ensures refused == old(refused) + (if ok then 0 else 1) && taken == old(taken)
    {
      ok := *;
      if !ok { refused := refused + 1; }
    }

    /** Whether the name exists; None when that could not be checked. */
    method Lstat(name: Name) returns (r: Option<bool>)
      requires Valid()
      modifies this`refused
      ensures Valid() && (r.Some? ==> r.value == (name in fs.names))
      ensures refused == old(refused) + (if r.Some? then 0 else 1) && taken == old(taken)
    {
      var works: bool := *;
      if !works {
        refused := refused + 1;
        return None;
      }
      return Some(name in fs.names);
    }

    /** Another process may create the name, if nothing has it. */
    method Interfere(name: Name) returns (ghost f: File)
      requires Valid()
      modifies this
      ensures Valid()
      ensures refused == old(refused) && taken == old(taken)
      ensures || (fs == old(fs) && history == old(history) && strangers == old(strangers))
              || (name !in old(fs.names) && old(next) !in old(fs.files) && strangers == old(strangers) + {old(next)}
                  && fs == State(old(fs.names)[name := old(next)], old(fs.files)[old(next) := f], false)
                  && history == old(history) + [fs])
    {
      var comes: bool := *;
      var theirs: File := *;
      f := theirs;
      if comes && name !in fs.names {
        fs := State(fs.names[name := next], fs.files[next := theirs], false);
        strangers := strangers + {next};
        next := next + 1;
        history := history + [fs];
      }
    }

    // ---------------------------------------------------------- the procedure

    /** Up to sixteen random names. */
    method Stage(base: string) returns (r: Option<(Name, nat)>)
      requires Valid()
      modifies this
      ensures Valid() && strangers == old(strangers)
      ensures r.None? ==> fs == old(fs) && history == old(history)
      ensures r.Some? ==>
                var (name, ino) := r.value;
                && IsStaging(base, name) && TextOf(name) != TextOf(Plain(base))
                && name !in old(fs.names) && ino !in old(fs.files) && ino !in strangers
                && fs == State(old(fs.names)[name := ino], old(fs.files)[ino := File([], false)], false)
                && history == old(history) + [fs]
      ensures r.Some? <==> refused == old(refused) && taken < old(taken) + 16
      ensures refused >= old(refused)
    {
      for attempt := 0 to 16
        invariant Valid() && strangers == old(strangers) && fs == old(fs) && history == old(history)
        invariant refused == old(refused) && taken == old(taken) + attempt
      {
        var drawn := Ask();
        if !drawn { return None; }
        var hex: string := *;
        var created := CreateExclusive(Staged(base, hex));
        if created.Ok? {
          StagingIsNotOutput(base, hex);
          return Some((Staged(base, hex), created.value));
        }
        if !created.error { return None; }
      }
      return None;
    }

    /** Write and fsync. */
    method WriteThrough(base: string, data: Bytes, ino: nat, ghost was: State, ghost from: nat) returns (ok: bool)
      requires Valid() && ino in fs.files && ino !in was.files && Plain(base) !in fs.names
      requires Kept(was, fs, base) && AllFine(from, was, base, data)
      modifies this
      ensures Valid() && strangers == old(strangers) && fs.names == old(fs.names) && ino in fs.files
      ensures ok ==> fs.files[ino] == File(data, true)
      ensures Kept(was, fs, base) && AllFine(from, was, base, data)
      ensures forall i :: i in old(fs.files) && i != ino ==> i in fs.files && fs.files[i] == old(fs.files)[i]
      ensures (ok <==> refused == old(refused)) && refused >= old(refused) && taken == old(taken)
    {
      ghost var part;
      ok, part := Write(ino, data);
      if ok { ok := Sync(ino); }
    }

    /** chmod, write, fsync and close; each of them may refuse. */
    method Fill(base: string, data: Bytes, ino: nat, ghost was: State, ghost from: nat) returns (ok: bool)
      requires Valid() && ino in fs.files && ino !in was.files && Plain(base) !in fs.names
      requires Kept(was, fs, base) && AllFine(from, was, base, data)
      modifies this
      ensures Valid() && strangers == old(strangers) && fs.names == old(fs.names) && ino in fs.files
      ensures ok ==> fs.files[ino] == File(data, true)
      ensures Kept(was, fs, base) && AllFine(from, was, base, data)
      ensures forall i :: i in old(fs.files) && i != ino ==> i in fs.files && fs.files[i] == old(fs.files)[i]
      ensures (ok <==> refused == old(refused)) && refused >= old(refused) && taken == old(taken)
    {
      ok := Ask();
      if ok { ok := WriteThrough(base, data, ino, was, from); }
      if ok { ok := Ask(); }
    }

    /** Taking the published name back, after a step past the link failed. */
    method TakeBack(base: string, data: Bytes, ghost was: State, ghost from: nat) returns (ok: bool)
      requires Valid() && Plain(base) !in was.names && Kept(was, fs, base) && AllFine(from, was, base, data)
      modifies this
      ensures Valid() && strangers == old(strangers) && fs.files == old(fs.files)
      ensures fs.names == if ok then old(fs.names) - {Plain(base)} else old(fs.names)
      ensures Kept(was, fs, base) && AllFine(from, was, base, data)
      ensures (ok <==> refused == old(refused)) && refused >= old(refused) && taken == old(taken)
    {
      ok := Remove(Plain(base));
    }

    /** Taking it back and synchronizing the directory again, as far as it can be opened. */
    method Withdraw(base: string, data: Bytes, ghost was: State, ghost from: nat) returns (ok: bool)
      requires Valid() && Linked(was, fs, base, data, strangers) && Kept(was, fs, base) && AllFine(from, was, base, data)
      modifies this
      ensures Valid() && strangers == old(strangers)
      ensures fs.names == if ok then old(fs.names) - {Plain(base)} else old(fs.names)
      ensures AllFine(from, was, base, data) && refused >= old(refused) && taken == old(taken)
    {
      ok := TakeBack(base, data, was, from);
      var opens := Ask();
      if opens {
        var _ := SyncDirectory();
        var _ := Ask();
      }
    }

    /** Dropping the staging name. */
    method Unstage(temporary: Name, base: string, data: Bytes, ghost was: State, ghost from: nat) returns (ok: bool)
      requires Valid() && IsStaging(base, temporary) && temporary !in was.names
      requires Fine(was, fs, base, data, strangers) && AllFine(from, was, base, data)
      modifies this
      ensures Valid() && strangers == old(strangers) && fs.files == old(fs.files)
      ensures fs.names == if ok then old(fs.names) - {temporary} else old(fs.names)
      ensures Fine(was, fs, base, data, strangers) && AllFine(from, was, base, data)
      ensures (ok <==> refused == old(refused)) && refused >= old(refused) && taken == old(taken)
    {
      ok := Remove(temporary);
    }

    /** The staging name is gone: synchronize the directory, or take the output back. */
    method Finish(base: string, data: Bytes, ghost was: State, ghost from: nat) returns (ok: bool, ghost cleaned: bool)
      requires Valid() && Linked(was, fs, base, data, strangers)
      requires fs.names == was.names[Plain(base) := fs.names[Plain(base)]]
      requires AllFine(from, was, base, data) && Kept(was, fs, base)
      modifies this
      ensures Valid() && strangers == old(strangers) && AllFine(from, was, base, data)
      ensures ok ==> Published(was, fs, base, data)
      ensures !ok && cleaned ==> fs.names == was.names
      ensures (ok <==> refused == old(refused)) && refused >= old(refused) && taken == old(taken)
    {
      PutAndTakeBack(was.names, Plain(base), fs.names[Plain(base)]);
      var opens := Ask();
      if !opens {
        cleaned := TakeBack(base, data, was, from);
        return false, cleaned;
      }
      ok := SyncDirectory();
      var closes := Ask();
      if !ok || !closes {
        cleaned := Withdraw(base, data, was, from);
        return false, cleaned;
      }
      cleaned := true;
    }

    /** After the link: drop the staging name and finish, or take the output back. */
    method Settle(temporary: Name, base: string, data: Bytes, ghost was: State, ghost from: nat)
      returns (ok: bool, ghost cleaned: bool)
      requires Valid() && IsStaging(base, temporary) && temporary !in was.names && Linked(was, fs, base, data, strangers)
      requires fs.names == was.names[temporary := fs.names[Plain(base)]][Plain(base) := fs.names[Plain(base)]]
      requires AllFine(from, was, base, data) && Kept(was, fs, base)
      modifies this
      ensures Valid() && strangers == old(strangers) && AllFine(from, was, base, data)
      ensures ok ==> Published(was, fs, base, data)
      ensures !ok && cleaned ==> fs.names == was.names
      ensures (ok <==> refused == old(refused)) && refused >= old(refused) && taken == old(taken)
    {
      PutTwoTakeBack(was.names, temporary, Plain(base), fs.names[Plain(base)]);
      ok := Unstage(temporary, base, data, was, from);
      if ok {
        ok, cleaned := Finish(base, data, was, from);
      } else {
        var gone := TakeBack(base, data, was, from);
        var again := Unstage(temporary, base, data, was, from);
        cleaned := gone && again;
      }
    }

    /** Another process may take the output name first. */
    method LetOthers(temporary: Name, base: string, data: Bytes, ghost was: State, ghost from: nat)
      requires Valid() && IsStaging(base, temporary) && temporary !in was.names && Plain(base) !in was.names
      requires temporary in fs.names && fs.names == was.names[temporary := fs.names[temporary]]
      requires AllFine(from, was, base, data) && Kept(was, fs, base)
      modifies this
      ensures Valid() && AllFine(from, was, base, data) && Fine(was, fs, base, data, strangers)
      ensures forall i :: i in old(fs.files) ==> i in fs.files && fs.files[i] == old(fs.files)[i] && (i in strangers ==> i in old(strangers))
      ensures fs.names == old(fs.names) || (Plain(base) in fs.names && fs.names[Plain(base)] in strangers
                                            && fs.names == old(fs.names)[Plain(base) := fs.names[Plain(base)]])
      ensures refused == old(refused) && taken == old(taken)
    {
      ghost var f := Interfere(Plain(base));
    }

    /** The create-only link, with whoever else may come first. */
    method LinkOutput(temporary: Name, base: string, data: Bytes, ghost was: State, ghost from: nat) returns (ok: bool)
      requires Valid() && IsStaging(base, temporary) && temporary !in was.names && Plain(base) !in was.names
      requires temporary in fs.names && fs.names[temporary] !in was.files && fs.names[temporary] !in strangers
      requires fs.files[fs.names[temporary]] == File(data, true)
      requires fs.names == was.names[temporary := fs.names[temporary]]
      requires AllFine(from, was, base, data) && Kept(was, fs, base)
      modifies this
      ensures Valid() && AllFine(from, was, base, data) && Fine(was, fs, base, data, strangers)
      ensures ok ==> Linked(was, fs, base, data, strangers)
                     && fs.names == was.names[temporary := fs.names[Plain(base)]][Plain(base) := fs.names[Plain(base)]]
      ensures !ok ==> Restored(was, State(fs.names - {temporary}, fs.files, false), base, strangers)
      ensures (ok <==> refused == old(refused)) && refused >= old(refused) && taken == old(taken)
    {
      LetOthers(temporary, base, data, was, from);
      ok := Link(temporary, Plain(base));
    }

    /**
     A name that exists is never replaced; in every state a crash can find, what was there is as it
     was and the output name, if it is this writer's, names the whole synchronized data; success
     leaves exactly that entry; failure leaves no entry unless a clean-up call failed too.
     It fails exactly when the name exists, a system call refused, or all sixteen staging names were taken.
     */
    method WriteAtomic(base: string, data: Bytes) returns (ok: bool, ghost cleaned: bool)
      requires Valid()
      modifies this
      ensures Valid()
      ensures forall k :: |old(history)| <= k < |history| ==> Fine(old(fs), history[k], base, data, strangers)
      ensures ok ==> Published(old(fs), fs, base, data)
      ensures !ok && cleaned ==> Restored(old(fs), fs, base, strangers)
      ensures Plain(base) in old(fs.names) ==> !ok && fs == old(fs)
      ensures ok <==> Plain(base) !in old(fs.names) && refused == old(refused) && taken < old(taken) + 16
    {
      ghost var was, from := fs, |history|;
      cleaned := true;
      var found := Lstat(Plain(base));
      if found.None? || found.value { return false, true; }
      var staged := Stage(base);
      if staged.None? { return false, true; }
      var (temporary, ino) := staged.value;
      ok := Fill(base, data, ino, was, from);
      if ok { ok := LinkOutput(temporary, base, data, was, from); }
      if ok {
        ok, cleaned := Settle(temporary, base, data, was, from);
      } else {
        cleaned := Unstage(temporary, base, data, was, from);
      }
    }
  }
}
