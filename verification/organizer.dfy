/** The batch organizer: one pass over the dump directory's entries that sends each file to
    the first destination rule it matches and counts what was moved and what was skipped. */
module Organizer {
  import opened Wrappers
  import opened FileSystem
  import opened Matcher
  import opened Relocator

  /** The loaded configuration: the watched directory and the rules in their listed order. */
  datatype Config = Config(dumpDirectory: Path, destinations: seq<Destination>)

  /** One entry of the directory listing. */
  datatype DirEntry = DirEntry(name: string, isDir: bool)

  /** What the pass did with one entry. */
  datatype EntryOutcome = Directory | Unmatched | Moved(rule: nat) | Failed(rule: nat, error: MoveError)

  /** The pass's running counters, the file system state and the outcome of each entry so far. */
  datatype Tally = Tally(moved: nat, skipped: nat, state: FsState, outcomes: seq<EntryOutcome>)

  /** The only error the pass returns: the dump directory could not be listed. */
  datatype OrganizeError = DumpUnreadable

  /** How one file is relocated: the effect of `moveFile(src, dst)` under the faults `f`. The
      pass runs with `MoveSpec`; what it does with the results holds for any relocation. */
  type Mover = (FsState, Path, Path, Faults) -> Effect<MoveError>

  /** The source path of a listed file. */
  function SourcePath(cfg: Config, name: string): Path {
    Join(cfg.dumpDirectory, name)
  }

  /** The effect of handling one entry, with the per-entry OS faults `f`. A matched file whose
      move fails is skipped twice: once for the failure and once more because it was not moved. */
  function Visit(t: Tally, cfg: Config, e: DirEntry, f: Faults, move: Mover): (v: Tally)
    ensures |v.outcomes| == |t.outcomes| + 1 && v.outcomes[..|t.outcomes|] == t.outcomes
  {
    if e.isDir then Tally(t.moved, t.skipped, t.state, t.outcomes + [Directory])
    else match FirstMatch(e.name, cfg.destinations)
      case None => Tally(t.moved, t.skipped + 1, t.state, t.outcomes + [Unmatched])
      case Some(k) =>
        var r := move(t.state, SourcePath(cfg, e.name), Join(cfg.destinations[k].path, e.name), f);
        if r.outcome.Pass? then Tally(t.moved + 1, t.skipped, r.state, t.outcomes + [Moved(k)])
        else Tally(t.moved, t.skipped + 2, r.state, t.outcomes + [Failed(k, r.outcome.error)])
  }

  /** The effect of a pass over `entries`, in listing order, from the state `s`; the entry at
      position `i` meets the OS faults `faults(i)`. */
  function Scan(s: FsState, cfg: Config, entries: seq<DirEntry>, faults: nat -> Faults, move: Mover): (t: Tally)
    ensures |t.outcomes| == |entries|
    decreases |entries|
  {
    if entries == [] then Tally(0, 0, s, [])
    else
      var n := |entries| - 1;
      Visit(Scan(s, cfg, entries[..n], faults, move), cfg, entries[n], faults(n), move)
  }

  /** One more entry extends the pass by one visit. */
  lemma ScanStep(s: FsState, cfg: Config, entries: seq<DirEntry>, faults: nat -> Faults, move: Mover, i: nat)
    requires i < |entries|
    ensures Scan(s, cfg, entries[..i + 1], faults, move)
            == Visit(Scan(s, cfg, entries[..i], faults, move), cfg, entries[i], faults(i), move)
  {
    assert entries[..i + 1][..i] == entries[..i];
  }

  /** A directory entry extends the pass by a `Directory` outcome and nothing else. */
  lemma ScanDirectory(s: FsState, cfg: Config, entries: seq<DirEntry>, faults: nat -> Faults, move: Mover, i: nat)
    requires i < |entries| && entries[i].isDir
    ensures var t := Scan(s, cfg, entries[..i], faults, move);
            Scan(s, cfg, entries[..i + 1], faults, move) == Tally(t.moved, t.skipped, t.state, t.outcomes + [Directory])
  {
    ScanStep(s, cfg, entries, faults, move, i);
  }

  /** A file that no rule matches is skipped once and changes nothing. */
  lemma ScanUnmatched(s: FsState, cfg: Config, entries: seq<DirEntry>, faults: nat -> Faults, move: Mover, i: nat)
    requires i < |entries| && !entries[i].isDir
    requires forall k :: 0 <= k < |cfg.destinations| ==> !MatchesPattern(entries[i].name, cfg.destinations[k])
    ensures var t := Scan(s, cfg, entries[..i], faults, move);
            Scan(s, cfg, entries[..i + 1], faults, move) == Tally(t.moved, t.skipped + 1, t.state, t.outcomes + [Unmatched])
  {
    ScanStep(s, cfg, entries, faults, move, i);
  }

  /** A file whose first matching rule is `j` is moved to that rule's directory: a success
      counts once as moved, a failure twice as skipped. */
  lemma ScanMatched(s: FsState, cfg: Config, entries: seq<DirEntry>, faults: nat -> Faults, move: Mover, i: nat, j: nat)
    requires i < |entries| && !entries[i].isDir
    requires j < |cfg.destinations| && MatchesPattern(entries[i].name, cfg.destinations[j])
    requires forall k :: 0 <= k < j ==> !MatchesPattern(entries[i].name, cfg.destinations[k])
    ensures var t := Scan(s, cfg, entries[..i], faults, move);
            var name := entries[i].name;
            var r := move(t.state, SourcePath(cfg, name), Join(cfg.destinations[j].path, name), faults(i));
            Scan(s, cfg, entries[..i + 1], faults, move)
            == if r.outcome.Pass? then Tally(t.moved + 1, t.skipped, r.state, t.outcomes + [Moved(j)])
               else Tally(t.moved, t.skipped + 2, r.state, t.outcomes + [Failed(j, r.outcome.error)])
  {
    ScanStep(s, cfg, entries, faults, move, i);
  }

  /** How many outcomes satisfy `p`. */
  function CountWhere(outcomes: seq<EntryOutcome>, p: EntryOutcome -> bool): (n: nat)
    ensures n <= |outcomes|
  {
    if outcomes == [] then 0
    else CountWhere(outcomes[..|outcomes| - 1], p) + (if p(outcomes[|outcomes| - 1]) then 1 else 0)
  }

  /** What one visit adds to the counters: one to `moved` for a moved file, one to `skipped`
      for an unmatched file, two to `skipped` for a failed move, nothing for a directory. */
  lemma VisitCounts(t: Tally, cfg: Config, e: DirEntry, f: Faults, move: Mover)
    ensures var v := Visit(t, cfg, e, f, move);
            var o := v.outcomes[|t.outcomes|];
            (o.Directory? <==> e.isDir)
            && v.moved == t.moved + (if o.Moved? then 1 else 0)
            && v.skipped == t.skipped + (if o.Unmatched? then 1 else if o.Failed? then 2 else 0)
  {
  }

  /** Counting over one more outcome adds that outcome's contribution. */
  lemma CountWhereSnoc(outcomes: seq<EntryOutcome>, o: EntryOutcome, p: EntryOutcome -> bool)
    ensures CountWhere(outcomes + [o], p) == CountWhere(outcomes, p) + if p(o) then 1 else 0
  {
    assert (outcomes + [o])[..|outcomes|] == outcomes;
  }

  predicate IsMoved(o: EntryOutcome) { o.Moved? }
  predicate IsUnmatched(o: EntryOutcome) { o.Unmatched? }
  predicate IsFailed(o: EntryOutcome) { o.Failed? }

  /** The number of listed entries that are not directories. */
  function CountFiles(entries: seq<DirEntry>): (n: nat)
    ensures n <= |entries|
  {
    if entries == [] then 0
    else CountFiles(entries[..|entries| - 1]) + (if entries[|entries| - 1].isDir then 0 else 1)
  }

  /** The counters agree with the outcomes, and every file among `entries` has exactly one
      of the outcomes moved, unmatched or failed. */
  predicate Counted(entries: seq<DirEntry>, t: Tally) {
    t.moved == CountWhere(t.outcomes, IsMoved)
    && t.skipped == CountWhere(t.outcomes, IsUnmatched) + 2 * CountWhere(t.outcomes, IsFailed)
    && CountFiles(entries)
       == CountWhere(t.outcomes, IsMoved) + CountWhere(t.outcomes, IsUnmatched) + CountWhere(t.outcomes, IsFailed)
  }

  /** One more entry, whose outcome `o` is weighted as a visit weights it, keeps the counters
      in agreement. */
  lemma CountedExtends(entries: seq<DirEntry>, e: DirEntry, prev: Tally, o: EntryOutcome, moved: nat, skipped: nat)
    requires Counted(entries, prev)
    requires o.Directory? <==> e.isDir
    requires moved == prev.moved + (if o.Moved? then 1 else 0)
    requires skipped == prev.skipped + (if o.Unmatched? then 1 else if o.Failed? then 2 else 0)
    ensures forall st :: Counted(entries + [e], Tally(moved, skipped, st, prev.outcomes + [o]))
  {
    CountWhereSnoc(prev.outcomes, o, IsMoved);
    CountWhereSnoc(prev.outcomes, o, IsUnmatched);
    CountWhereSnoc(prev.outcomes, o, IsFailed);
    assert (entries + [e])[..|entries|] == entries;
  }

  /** The counters of a pass: each moved file adds one to `moved`, each unmatched file one to
      `skipped` and each failed move two to `skipped`; every file gets exactly one of these
      outcomes, so moved + skipped is the number of files plus the number of failed moves. */
  lemma {:induction false} ScanCounts(s: FsState, cfg: Config, entries: seq<DirEntry>, faults: nat -> Faults, move: Mover)
    ensures var t := Scan(s, cfg, entries, faults, move);
            t.moved == CountWhere(t.outcomes, IsMoved)
            && t.skipped == CountWhere(t.outcomes, IsUnmatched) + 2 * CountWhere(t.outcomes, IsFailed)
            && CountFiles(entries)
               == CountWhere(t.outcomes, IsMoved) + CountWhere(t.outcomes, IsUnmatched) + CountWhere(t.outcomes, IsFailed)
    ensures var t := Scan(s, cfg, entries, faults, move);
            t.moved + t.skipped == CountFiles(entries) + CountWhere(t.outcomes, IsFailed)
  {
    if entries != [] {
      var n := |entries| - 1;
      var prev := Scan(s, cfg, entries[..n], faults, move);
      ScanCounts(s, cfg, entries[..n], faults, move);
      var t := Scan(s, cfg, entries, faults, move);
      assert t == Visit(prev, cfg, entries[n], faults(n), move);
      VisitCounts(prev, cfg, entries[n], faults(n), move);
      var o := t.outcomes[n];
      assert t.outcomes == prev.outcomes + [o];
      CountedExtends(entries[..n], entries[n], prev, o, t.moved, t.skipped);
      assert entries[..n] + [entries[n]] == entries;
      assert Counted(entries, Tally(t.moved, t.skipped, t.state, prev.outcomes + [o]));
    }
  }

  /** The outcome an entry may have: directories are passed over, a file with no matching
      rule is unmatched, and a file is moved to, or fails to move to, its first matching rule
      and no other. */
  predicate Agrees(o: EntryOutcome, e: DirEntry, rules: seq<Destination>)
  {
    if e.isDir then o == Directory
    else match FirstMatch(e.name, rules)
      case None => o == Unmatched
      case Some(k) => o == Moved(k) || (o.Failed? && o.rule == k)
  }

  /** The outcome a visit appends agrees with the entry. */
  lemma VisitAgrees(t: Tally, cfg: Config, e: DirEntry, f: Faults, move: Mover)
    ensures Agrees(Visit(t, cfg, e, f, move).outcomes[|t.outcomes|], e, cfg.destinations)
  {
  }

  lemma {:induction false} ScanFollowsFirstMatch(s: FsState, cfg: Config, entries: seq<DirEntry>, faults: nat -> Faults, move: Mover)
    ensures var t := Scan(s, cfg, entries, faults, move);
            forall i :: 0 <= i < |entries| ==> Agrees(t.outcomes[i], entries[i], cfg.destinations)
  {
    if entries != [] {
      var n := |entries| - 1;
      var prev := Scan(s, cfg, entries[..n], faults, move);
      ScanFollowsFirstMatch(s, cfg, entries[..n], faults, move);
      VisitAgrees(prev, cfg, entries[n], faults(n), move);
      var t := Scan(s, cfg, entries, faults, move);
      assert t.outcomes[..n] == prev.outcomes;
      forall i | 0 <= i < |entries|
        ensures Agrees(t.outcomes[i], entries[i], cfg.destinations)
      {
        if i < n {
          assert t.outcomes[i] == prev.outcomes[i] && entries[i] == entries[..n][i];
        }
      }
    }
  }

  /** The source paths of the listed files that some rule matches. */
  function Claimed(cfg: Config, entries: seq<DirEntry>): set<Path>
  {
    set i | 0 <= i < |entries| && !entries[i].isDir && FirstMatch(entries[i].name, cfg.destinations).Some?
      :: SourcePath(cfg, entries[i].name)
  }

  /** Visiting one entry changes no file other than that entry's source, when a rule claims
      it, and removes no directory. */
  lemma VisitNeverOverwrites(t: Tally, cfg: Config, e: DirEntry, f: Faults)
    ensures var v := Visit(t, cfg, e, f, MoveSpec);
            forall p :: p in t.state.files
                        && (e.isDir || FirstMatch(e.name, cfg.destinations).None? || p != SourcePath(cfg, e.name)) ==>
              p in v.state.files && v.state.files[p] == t.state.files[p]
    ensures t.state.dirs <= Visit(t, cfg, e, f, MoveSpec).state.dirs
  {
    if !e.isDir && FirstMatch(e.name, cfg.destinations).Some? {
      var k := FirstMatch(e.name, cfg.destinations).value;
      MoveNeverOverwrites(t.state, SourcePath(cfg, e.name), Join(cfg.destinations[k].path, e.name), f);
    }
  }

  /** Listing one more entry claims everything the shorter listing claimed, and the new
      entry's source when a rule matches it. */
  lemma ClaimedGrows(cfg: Config, entries: seq<DirEntry>)
    requires entries != []
    ensures Claimed(cfg, entries[..|entries| - 1]) <= Claimed(cfg, entries)
    ensures var e := entries[|entries| - 1];
            !e.isDir && FirstMatch(e.name, cfg.destinations).Some? ==> SourcePath(cfg, e.name) in Claimed(cfg, entries)
  {
    var n := |entries| - 1;
    forall p | p in Claimed(cfg, entries[..n]) ensures p in Claimed(cfg, entries) {
      var i :| 0 <= i < n && !entries[..n][i].isDir
               && FirstMatch(entries[..n][i].name, cfg.destinations).Some?
               && p == SourcePath(cfg, entries[..n][i].name);
      assert entries[..n][i] == entries[i];
    }
  }

  /** Files kept from `s` to `a` outside `c1`, and from `a` to `b` except perhaps `src`, are
      kept from `s` to `b` outside any `c` that holds both. */
  lemma KeptAcross(s: FsState, a: FsState, b: FsState, c1: set<Path>, c: set<Path>, claimedNow: bool, src: Path)
    requires forall p :: p in s.files && p !in c1 ==> p in a.files && a.files[p] == s.files[p]
    requires forall p :: p in a.files && (!claimedNow || p != src) ==> p in b.files && b.files[p] == a.files[p]
    requires c1 <= c && (claimedNow ==> src in c)
    ensures forall p :: p in s.files && p !in c ==> p in b.files && b.files[p] == s.files[p]
  {
  }

  /** A pass never overwrites or deletes a file other than a matched dump-directory file, and
      never deletes a directory. */
  lemma {:induction false} ScanNeverOverwrites(s: FsState, cfg: Config, entries: seq<DirEntry>, faults: nat -> Faults)
    ensures var t := Scan(s, cfg, entries, faults, MoveSpec);
            forall p :: p in s.files && p !in Claimed(cfg, entries) ==>
              p in t.state.files && t.state.files[p] == s.files[p]
    ensures s.dirs <= Scan(s, cfg, entries, faults, MoveSpec).state.dirs
  {
    if entries != [] {
      var n := |entries| - 1;
      var prev := Scan(s, cfg, entries[..n], faults, MoveSpec);
      ScanNeverOverwrites(s, cfg, entries[..n], faults);
      var e := entries[n];
      var t := Scan(s, cfg, entries, faults, MoveSpec);
      assert t == Visit(prev, cfg, e, faults(n), MoveSpec);
      VisitNeverOverwrites(prev, cfg, e, faults(n));
      ClaimedGrows(cfg, entries);
      KeptAcross(s, prev.state, t.state, Claimed(cfg, entries[..n]), Claimed(cfg, entries),
                 !e.isDir && FirstMatch(e.name, cfg.destinations).Some?, SourcePath(cfg, e.name));
    }
  }

  /** A pass keeps a well-formed file system well formed. */
  lemma {:induction false} ScanPreservesValid(s: FsState, cfg: Config, entries: seq<DirEntry>, faults: nat -> Faults)
    requires s.Valid()
    ensures Scan(s, cfg, entries, faults, MoveSpec).state.Valid()
  {
    if entries != [] {
      var n := |entries| - 1;
      var prev := Scan(s, cfg, entries[..n], faults, MoveSpec);
      ScanPreservesValid(s, cfg, entries[..n], faults);
      var e := entries[n];
      if !e.isDir && FirstMatch(e.name, cfg.destinations).Some? {
        var k := FirstMatch(e.name, cfg.destinations).value;
        MovePreservesValid(prev.state, SourcePath(cfg, e.name), Join(cfg.destinations[k].path, e.name), faults(n));
      }
    }
  }

  /** `organizeFiles`. `listing` is what `os.ReadDir` returned for the dump directory
      (`None` when it failed); the counters the source only logs are returned. */
  method Organize(fs: Fs, cfg: Config, listing: Option<seq<DirEntry>>, faults: nat -> Faults)
    returns (r: Outcome<OrganizeError>, movedCount: nat, skippedCount: nat, ghost outcomes: seq<EntryOutcome>)
    modifies fs
    ensures listing.None? ==>
              r == Fail(DumpUnreadable) && movedCount == 0 && skippedCount == 0
              && fs.State() == old(fs.State())
    ensures listing.Some? ==>
              r == Pass
              && Tally(movedCount, skippedCount, fs.State(), outcomes)
                 == Scan(old(fs.State()), cfg, listing.value, faults, MoveSpec)
  {
    if listing.None? {
      return Fail(DumpUnreadable), 0, 0, [];
    }
    var files := listing.value;
    ghost var start := fs.State();
    movedCount, skippedCount, outcomes := 0, 0, [];
    var i := 0;
    while i < |files|
      invariant 0 <= i <= |files|
      invariant Tally(movedCount, skippedCount, fs.State(), outcomes) == Scan(start, cfg, files[..i], faults, MoveSpec)
    {
      var file := files[i];
      ghost var before := Tally(movedCount, skippedCount, fs.State(), outcomes);
      if file.isDir {
        ScanDirectory(start, cfg, files, faults, MoveSpec, i);
        outcomes := outcomes + [Directory];
        i := i + 1;
        continue;
      }
      var filename := file.name;
      var sourcePath := Join(cfg.dumpDirectory, filename);
      var moved := false;
      ghost var outcome := Unmatched;
      var j := 0;
      while j < |cfg.destinations|
        invariant 0 <= j <= |cfg.destinations|
        invariant forall k :: 0 <= k < j ==> !MatchesPattern(filename, cfg.destinations[k])
        invariant !moved && outcome == Unmatched
        invariant Tally(movedCount, skippedCount, fs.State(), outcomes) == before
      {
        var dest := cfg.destinations[j];
        if MatchesPattern(filename, dest) {
          var destPath := Join(dest.path, filename);
          var err := MoveFile(fs, sourcePath, destPath, faults(i));
          if err.Fail? {
            skippedCount := skippedCount + 1;
            outcome := Failed(j, err.error);
          } else {
            movedCount := movedCount + 1;
            moved := true;
            outcome := Moved(j);
          }
          ScanMatched(start, cfg, files, faults, MoveSpec, i, j);
          break;
        }
        j := j + 1;
      }
      if outcome == Unmatched {
        ScanUnmatched(start, cfg, files, faults, MoveSpec, i);
      }
      if !moved {
        skippedCount := skippedCount + 1;
      }
      outcomes := outcomes + [outcome];
      i := i + 1;
    }
    assert files[..|files|] == files;
    r := Pass;
  }
}
