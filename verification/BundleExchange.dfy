/**
 The Windows bundle exchange (cmd/witself/antigravity_bundle_exchange_windows.go): two no-replace
 renames with a rollback, under failure, interruption and a foreign bundle at any point between them.
 */
module BundleExchange {
  import opened Prelude

  type Path = string
  type Bundle = nat

  datatype Stat = Exists | NotExist | StatFailed

  /** One name moved to a free one. */
  function Moved(names: map<Path, Bundle>, from: Path, to: Path): map<Path, Bundle>
    requires from in names
  {
    (names - {from})[to := names[from]]
  }

  // ------------------------------------------------------------ layouts

  /** The paths of one exchange. */
  datatype Paths = Paths(live: Path, staged: Path, quarantine: Path)

  predicate Apart(p: Paths) {
    p.live != p.staged && p.live != p.quarantine && p.staged != p.quarantine
  }

  /** The old bundle is in quarantine, the new one still staged, live free. */
  predicate Quarantined(was: map<Path, Bundle>, s: map<Path, Bundle>, p: Paths) {
    p.live in was && p.quarantine !in was && s == Moved(was, p.live, p.quarantine)
  }

  /** As before, with a foreign bundle at live. */
  predicate Overtaken(was: map<Path, Bundle>, s: map<Path, Bundle>, p: Paths, strangers: set<Bundle>) {
    && p.live in was && p.quarantine !in was && p.live in s && s[p.live] in strangers
    && s == Moved(was, p.live, p.quarantine)[p.live := s[p.live]]
  }

  /** New at live, old in quarantine. */
  predicate Exchanged(was: map<Path, Bundle>, s: map<Path, Bundle>, p: Paths) {
    && p.live in was && p.staged in was && p.quarantine !in was
    && s == (was - {p.staged})[p.live := was[p.staged]][p.quarantine := was[p.live]]
  }

  predicate Layout(was: map<Path, Bundle>, s: map<Path, Bundle>, p: Paths, strangers: set<Bundle>) {
    s == was || Quarantined(was, s, p) || Overtaken(was, s, p, strangers) || Exchanged(was, s, p)
  }

  /** The names a bundle goes by. */
  function NamesOf(s: map<Path, Bundle>, b: Bundle): set<Path> {
    set n | n in s && s[n] == b
  }

  /** In every layout the old and the new bundle are there, each under exactly one name. */
  lemma EachBundleOnce(was: map<Path, Bundle>, s: map<Path, Bundle>, p: Paths, strangers: set<Bundle>)
    requires Apart(p) && Layout(was, s, p, strangers) && p.live in was && p.staged in was
    requires NamesOf(was, was[p.live]) == {p.live} && NamesOf(was, was[p.staged]) == {p.staged}
    requires was[p.live] !in strangers && was[p.staged] !in strangers
    ensures exists n :: NamesOf(s, was[p.live]) == {n} && (n == p.live || n == p.quarantine)
    ensures exists n :: NamesOf(s, was[p.staged]) == {n} && (n == p.live || n == p.staged)
  {
    var old_, new_ := was[p.live], was[p.staged];
    assert p.live in NamesOf(was, old_) && p.staged in NamesOf(was, new_);
    assert p.staged !in NamesOf(was, old_);
    assert old_ != new_;
    forall n | n in was && n != p.live ensures was[n] != old_ {
      assert n in NamesOf(was, old_) <==> was[n] == old_;
    }
    forall n | n in was && n != p.staged ensures was[n] != new_ {
      assert n in NamesOf(was, new_) <==> was[n] == new_;
    }
    var a := if s == was then p.live else p.quarantine;
    var b := if s != was && Exchanged(was, s, p) then p.live else p.staged;
    assert NamesOf(s, old_) == {a};
    assert NamesOf(s, new_) == {b};
  }

  // ------------------------------------------------------------ courses

  /** A system call and its answer. */
  datatype Call = Looked(path: Path, stat: Stat) | Renamed(from: Path, to: Path, ok: bool)

  /** The second rename was refused, or not, after the first went through. */
  predicate Halfway(p: Paths, did: seq<Call>, published: bool) {
    && |did| >= 3 && did[0] == Looked(p.quarantine, NotExist) && did[1] == Renamed(p.live, p.quarantine, true)
    && did[2] == Renamed(p.staged, p.live, published)
  }

  /** Both renames went through. */
  predicate WentThrough(p: Paths, did: seq<Call>) {
    |did| == 3 && Halfway(p, did, true)
  }

  /** Nothing was moved: quarantine was not seen free, or the first rename was refused. */
  predicate NotBegun(p: Paths, did: seq<Call>) {
    if |did| == 1 then did[0].Looked? && did[0].path == p.quarantine && did[0].stat != NotExist
    else |did| == 2 && did[0] == Looked(p.quarantine, NotExist) && did[1] == Renamed(p.live, p.quarantine, false)
  }

  /** Live was seen free, and the old bundle went back. */
  predicate PutBack(p: Paths, did: seq<Call>) {
    && |did| == 5 && Halfway(p, did, false)
    && did[3] == Looked(p.live, NotExist) && did[4] == Renamed(p.quarantine, p.live, true)
  }

  /** Live was not seen free, or putting the old bundle back was tried and refused. */
  predicate CouldNotPutBack(p: Paths, did: seq<Call>) {
    && |did| > 3 && Halfway(p, did, false)
    && if |did| == 4 then did[3].Looked? && did[3].path == p.live && did[3].stat != NotExist
       else |did| == 5 && did[3] == Looked(p.live, NotExist) && did[4] == Renamed(p.quarantine, p.live, false)
  }

  // ------------------------------------------------------------ the volume

  /**
   One volume's bundle directories; `history` holds every state an interruption could find, and
   `calls` every system call with its answer.
   */
  class Volume {
    var names: map<Path, Bundle>
    ghost var calls: seq<Call>
    ghost var history: seq<map<Path, Bundle>>
    ghost var strangers: set<Bundle>

    method Rename(from: Path, to: Path) returns (ok: bool)
      modifies this
      ensures strangers == old(strangers) && calls == old(calls) + [Renamed(from, to, ok)]
      ensures if ok then from in old(names) && to !in old(names) && names == Moved(old(names), from, to)
                         && history == old(history) + [names]
              else names == old(names) && history == old(history)
    {
      ok := *;
      if from !in names || to in names { ok := false; }
      calls := calls + [Renamed(from, to, ok)];
      if ok {
        names := (names - {from})[to := names[from]];
        history := history + [names];
      }
    }

    method Lstat(path: Path) returns (s: Stat)
      modifies this
      ensures names == old(names) && history == old(history) && strangers == old(strangers)
      ensures calls == old(calls) + [Looked(path, s)]
      ensures s == Exists ==> path in names
      ensures s == NotExist ==> path !in names
    {
      var works: bool := *;
      s := if !works then StatFailed else if path in names then Exists else NotExist;
      calls := calls + [Looked(path, s)];
    }

    /** Another program may put a bundle at a free path. */
    method Interfere(path: Path)
      modifies this
      ensures calls == old(calls)
      ensures || (names == old(names) && history == old(history) && strangers == old(strangers))
              || (path !in old(names) && path in names && names == old(names)[path := names[path]]
                  && strangers == old(strangers) + {names[path]} && history == old(history) + [names])
    {
      var comes: bool := *;
      var bundle: Bundle := *;
      if comes && path !in names {
        names := names[path := bundle];
        strangers := strangers + {bundle};
        history := history + [names];
      }
    }

    /** After the second rename was refused: the old bundle goes back if live is seen free. */
    method TryBack(p: Paths, ghost was: map<Path, Bundle>) returns (ghost did: seq<Call>)
      requires p.staged != p.quarantine && (Quarantined(was, names, p) || Overtaken(was, names, p, strangers))
      modifies this
      ensures calls == old(calls) + did && strangers >= old(strangers)
      ensures |history| >= |old(history)| && history[..|old(history)|] == old(history)
      ensures forall k :: |old(history)| <= k < |history| ==> Layout(was, history[k], p, strangers)
      ensures 1 <= |did| <= 2 && did[0].Looked? && did[0].path == p.live && (|did| == 2 <==> did[0].stat == NotExist)
      ensures |did| == 2 ==> did[1] == Renamed(p.quarantine, p.live, names == was)
      ensures names == was ==> |did| == 2
      ensures names != was ==> Quarantined(was, names, p) || Overtaken(was, names, p, strangers)
    {
      Interfere(p.live);
      var found := Lstat(p.live);
      did := [Looked(p.live, found)];
      if found == NotExist {
        Interfere(p.live);
        var ok := Rename(p.quarantine, p.live);
        did := did + [Renamed(p.quarantine, p.live, ok)];
        if ok { assert names == was; }
      }
    }

    /**
     Every state on the way is one of the layouts. Success, exactly when both renames went through,
     leaves new at live and old at the returned path. Every error leaves the original layout, except
     exactly where live was not seen free or putting the old bundle back was tried and refused: then
     old stays in quarantine with new still staged.
     */
    method Exchange(p: Paths) returns (r: Option<Path>, ghost did: seq<Call>)
      requires p.staged != p.quarantine
      modifies this
      ensures calls == old(calls) + did
      ensures forall k :: |old(history)| <= k < |history| ==> Layout(old(names), history[k], p, strangers)
      ensures WentThrough(p, did) || NotBegun(p, did) || PutBack(p, did) || CouldNotPutBack(p, did)
      ensures r == if WentThrough(p, did) then Some(p.quarantine) else None
      ensures WentThrough(p, did) ==> Exchanged(old(names), names, p)
      ensures NotBegun(p, did) || PutBack(p, did) ==> names == old(names)
      ensures CouldNotPutBack(p, did) ==> Quarantined(old(names), names, p) || Overtaken(old(names), names, p, strangers)
    {
      ghost var was := names;
      var found := Lstat(p.quarantine);
      did := [Looked(p.quarantine, found)];
      if found != NotExist { return None, did; }
      var ok := Rename(p.live, p.quarantine);
      did := did + [Renamed(p.live, p.quarantine, ok)];
      if !ok { return None, did; }
      assert Quarantined(was, names, p);
      Interfere(p.live);
      ok := Rename(p.staged, p.live);
      did := did + [Renamed(p.staged, p.live, ok)];
      if ok {
        assert Exchanged(was, names, p);
        return Some(p.quarantine), did;
      }
      ghost var tail := TryBack(p, was);
      did := did + tail;
      return None, did;
    }
  }
}
