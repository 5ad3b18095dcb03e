/** The incremental index build (agentrail/context/index.py): a build reuses the stored index whole,
    or record by record, when times or content hashes say nothing changed. The theorems compare it
    with a build from scratch, over every history of edits and builds. */
module IndexBuild {
  import opened Collections
  import opened Lexicographic
  import opened Sequences
  import opened StableSort
  import Chunks

  datatype File = File(content: string, mtime: int)

  type Disk = map<string, File>

  datatype Redacted = Redacted(text: string, findings: seq<string>)

  /** The fixed configuration: which paths the globs let in, which files are skipped (ignored by git,
      oversized, binary), which can be read, and how text is redacted, hashed and cut into chunks. */
  datatype Config = Config(
    allowed: string -> bool, skipped: (string, string) -> bool, readable: string -> bool,
    redact: string -> Redacted, hash: string -> string, chunks: (string, string) -> seq<Chunks.Chunk>)

  /** A source record with the chunks stored under it. */
  datatype Record = Record(path: string, contentHash: string, content: string, chunks: seq<Chunks.Chunk>,
                           findings: seq<string>, modifiedAt: int)

  /** What a build writes: records, the fingerprint of the paths the globs let in, and its own time. */
  datatype Index = Index(records: seq<Record>, fingerprint: set<string>, mtime: int)

  predicate Eligible(cfg: Config, path: string, content: string) {
    cfg.allowed(path) && !cfg.skipped(path, content) && cfg.readable(content)
  }

  /** `source_record_for_file` and `chunks_for_source` */
  function FreshRecord(cfg: Config, path: string, f: File): Record {
    var redacted := cfg.redact(f.content);
    Record(path, cfg.hash(redacted.text), redacted.text, cfg.chunks(path, redacted.text), redacted.findings, f.mtime)
  }

  function Fingerprint(cfg: Config, disk: Disk): (s: set<string>)
    ensures forall p :: p in s <==> p in disk && cfg.allowed(p)
  {
    set p | p in disk && cfg.allowed(p)
  }

  /** `_cached_index_is_fresh` */
  predicate CacheIsFresh(cfg: Config, disk: Disk, index: Option<Index>) {
    && index.Some? && index.value.fingerprint == Fingerprint(cfg, disk)
    && forall p | p in disk && cfg.allowed(p) :: disk[p].mtime <= index.value.mtime
  }

  /** `old_records.get(path)` */
  function Find(records: seq<Record>, path: string): (r: Option<Record>)
    ensures r.Some? ==> r.value in records && r.value.path == path
    ensures r.None? ==> forall x | x in records :: x.path != path
  {
    if records == [] then None else
      var last := records[|records| - 1];
      if last.path == path then Some(last) else Find(records[..|records| - 1], path)
  }

  function OldRecords(index: Option<Index>): seq<Record> {
    if index.Some? then index.value.records else []
  }

  datatype Outcome = Skipped | Reused(record: Record) | Rebuilt(record: Record)

  /** What the loop does with one file. */
  function Visit(cfg: Config, path: string, f: File, index: Option<Index>): Outcome {
    if !cfg.allowed(path) || cfg.skipped(path, f.content) then Skipped else
    var kept := Find(OldRecords(index), path);
    if kept.Some? && index.Some? && f.mtime <= index.value.mtime then Reused(kept.value)
    else if !cfg.readable(f.content) then Skipped
    else if kept.Some? && kept.value.contentHash == cfg.hash(cfg.redact(f.content).text) then Reused(kept.value)
    else Rebuilt(FreshRecord(cfg, path, f))
  }

  function Collected(cfg: Config, disk: Disk, walked: seq<string>, index: Option<Index>): seq<Record>
    requires forall p | p in walked :: p in disk
  {
    if walked == [] then [] else
      var front, path := walked[..|walked| - 1], walked[|walked| - 1];
      var outcome := Visit(cfg, path, disk[path], index);
      Collected(cfg, disk, front, index) + (if outcome.Skipped? then [] else [outcome.record])
  }

  /** How many records are made anew. */
  function RebuiltCount(cfg: Config, disk: Disk, walked: seq<string>, index: Option<Index>): nat
    requires forall p | p in walked :: p in disk
  {
    if walked == [] then 0 else
      var front, path := walked[..|walked| - 1], walked[|walked| - 1];
      RebuiltCount(cfg, disk, front, index) + (if Visit(cfg, path, disk[path], index).Rebuilt? then 1 else 0)
  }

  predicate PathLe(a: Record, b: Record) {
    StringLe(a.path, b.path)
  }

  /** The index after a build that starts at `now`. */
  function Build(cfg: Config, disk: Disk, walked: seq<string>, index: Option<Index>, now: int): Index
    requires forall p | p in walked :: p in disk
  {
    if CacheIsFresh(cfg, disk, index) then index.value
    else Index(Sort(Collected(cfg, disk, walked, index), PathLe), Fingerprint(cfg, disk), now)
  }

  /** The stored index of a project. */
  class Store {
    const cfg: Config
    var index: Option<Index>

    constructor (cfg: Config)
      ensures this.cfg == cfg && index == None
    {
      this.cfg := cfg;
      index := None;
    }

    /** `build_index`, on the files in the order they are walked. */
    method BuildIndex(disk: Disk, walked: seq<string>, now: int)
      returns (cacheHit: bool, reused: nat, rebuilt: nat)
      requires forall p | p in walked :: p in disk
      modifies this
      ensures index == Some(Build(cfg, disk, walked, old(index), now))
      ensures cacheHit == CacheIsFresh(cfg, disk, old(index))
      ensures reused + rebuilt == |index.value.records|
      ensures rebuilt == if cacheHit then 0 else RebuiltCount(cfg, disk, walked, old(index))
    {
      hide Sort, Collected, RebuiltCount, Fingerprint;
      NoVisit(cfg, disk, walked, index);
      if CacheIsFresh(cfg, disk, index) {
        return true, |index.value.records|, 0;
      }
      var records: seq<Record> := [];
      reused, rebuilt := 0, 0;
      for i := 0 to |walked|
        invariant records == Collected(cfg, disk, walked[..i], index) && reused + rebuilt == |records|
        invariant rebuilt == RebuiltCount(cfg, disk, walked[..i], index) && index == old(index)
      {
        OneVisit(cfg, disk, walked, i, index);
        var path := walked[i];
        var f := disk[path];
        if !cfg.allowed(path) || cfg.skipped(path, f.content) { continue; }
        var kept := Find(OldRecords(index), path);
        if kept.Some? && index.Some? && f.mtime <= index.value.mtime {
          records := records + [kept.value];
          reused := reused + 1;
          continue;
        }
        if !cfg.readable(f.content) { continue; }
        if kept.Some? && kept.value.contentHash == cfg.hash(cfg.redact(f.content).text) {
          records := records + [kept.value];
          reused := reused + 1;
          continue;
        }
        records := records + [FreshRecord(cfg, path, f)];
        rebuilt := rebuilt + 1;
      }
      AllVisits(cfg, disk, walked, index);
      SortPermutes(records, PathLe);
      index := Some(Index(Sort(records, PathLe), Fingerprint(cfg, disk), now));
      cacheHit := false;
    }
  }

  lemma NoVisit(cfg: Config, disk: Disk, walked: seq<string>, index: Option<Index>)
    requires forall p | p in walked :: p in disk
    ensures Collected(cfg, disk, walked[..0], index) == [] && RebuiltCount(cfg, disk, walked[..0], index) == 0
  {
  }

  lemma AllVisits(cfg: Config, disk: Disk, walked: seq<string>, index: Option<Index>)
    requires forall p | p in walked :: p in disk
    ensures Collected(cfg, disk, walked[..|walked|], index) == Collected(cfg, disk, walked, index)
    ensures RebuiltCount(cfg, disk, walked[..|walked|], index) == RebuiltCount(cfg, disk, walked, index)
  {
    assert walked[..|walked|] == walked;
  }

  lemma OneVisit(cfg: Config, disk: Disk, walked: seq<string>, i: nat, index: Option<Index>)
    requires i < |walked| && forall p | p in walked :: p in disk
    ensures var outcome := Visit(cfg, walked[i], disk[walked[i]], index);
      && Collected(cfg, disk, walked[..i + 1], index) ==
           Collected(cfg, disk, walked[..i], index) + (if outcome.Skipped? then [] else [outcome.record])
      && RebuiltCount(cfg, disk, walked[..i + 1], index) ==
           RebuiltCount(cfg, disk, walked[..i], index) + (if outcome.Rebuilt? then 1 else 0)
  {
    hide Visit;
    assert walked[..i + 1][..i] == walked[..i];
  }

  // ---------------------------------------------------------------------------
  // What an index should hold
  // ---------------------------------------------------------------------------

  /** The same source, except for its times and its list of redactions. */
  predicate SameSource(a: Record, b: Record) {
    a.path == b.path && a.contentHash == b.contentHash && a.content == b.content && a.chunks == b.chunks
  }

  predicate StrictlySorted(records: seq<Record>) {
    forall i, j | 0 <= i < j < |records| :: PathLe(records[i], records[j]) && records[i].path != records[j].path
  }

  /** The records are right for this disk, all there, and in path order. */
  predicate IsFull(cfg: Config, disk: Disk, records: seq<Record>) {
    && StrictlySorted(records)
    && (forall r | r in records ::
          && r.path in disk && Eligible(cfg, r.path, disk[r.path].content)
          && SameSource(r, FreshRecord(cfg, r.path, disk[r.path])))
    && (forall p | p in disk && Eligible(cfg, p, disk[p].content) :: Find(records, p).Some?)
  }

  function Paths(records: seq<Record>): seq<string> {
    Mapped(records, (r: Record) => r.path)
  }

  lemma PathsOrdered(records: seq<Record>)
    requires StrictlySorted(records)
    ensures Distinct(Paths(records)) && Sorted(Paths(records), StringLe)
    ensures forall p :: p in Paths(records) <==> Find(records, p).Some?
  {
    forall p ensures p in Paths(records) <==> Find(records, p).Some? {
      if p in Paths(records) {
        var i :| 0 <= i < |records| && Paths(records)[i] == p;
        assert records[i] in records;
      }
      if Find(records, p).Some? {
        var i :| 0 <= i < |records| && records[i] == Find(records, p).value;
        assert Paths(records)[i] == p;
      }
    }
  }

  lemma PathsEligible(cfg: Config, disk: Disk, records: seq<Record>)
    requires IsFull(cfg, disk, records)
    ensures forall p :: p in Paths(records) <==> p in disk && Eligible(cfg, p, disk[p].content)
  {
    PathsOrdered(records);
    forall p | Find(records, p).Some? ensures p in disk && Eligible(cfg, p, disk[p].content) {
      assert Find(records, p).value in records;
    }
  }

  /** Source by source the same, in the same order. */
  predicate Agree(a: seq<Record>, b: seq<Record>) {
    |a| == |b| && forall i | 0 <= i < |a| :: SameSource(a[i], b[i])
  }

  /** So all full indexes of a disk agree: same paths in the same order, same hashes, same chunks. */
  lemma FullIsUnique(cfg: Config, disk: Disk, a: seq<Record>, b: seq<Record>)
    requires IsFull(cfg, disk, a) && IsFull(cfg, disk, b)
    ensures Agree(a, b)
  {
    PathsOrdered(a);
    PathsOrdered(b);
    PathsEligible(cfg, disk, a);
    PathsEligible(cfg, disk, b);
    SameElements(Paths(a), Paths(b));
    forall x, y | x in Paths(a) && y in Paths(a) && StringLe(x, y) && StringLe(y, x) ensures x == y {
      StringOrder(x, y, x);
    }
    SortedIsUnique(Paths(a), Paths(b), StringLe);
    assert |a| == |Paths(a)| && |b| == |Paths(b)|;
    forall i | 0 <= i < |a| ensures SameSource(a[i], b[i]) {
      assert Paths(a)[i] == Paths(b)[i] && a[i] in a && b[i] in b;
    }
  }

  // ---------------------------------------------------------------------------
  // Histories
  // ---------------------------------------------------------------------------

  /** The index is full for the disk it was built from, and no file as old as the index has changed
      since. */
  ghost predicate BuiltFrom(cfg: Config, disk: Disk, index: Index, seen: Disk) {
    && IsFull(cfg, seen, index.records) && index.fingerprint == Fingerprint(cfg, seen)
    && forall p | p in disk && disk[p].mtime <= index.mtime :: p in seen && disk[p].content == seen[p].content
  }

  ghost predicate Inv(cfg: Config, disk: Disk, index: Option<Index>) {
    index.Some? ==> exists seen :: BuiltFrom(cfg, disk, index.value, seen)
  }

  ghost predicate HashInjective(cfg: Config) {
    forall a, b | cfg.hash(a) == cfg.hash(b) :: a == b
  }

  predicate Lists(walked: seq<string>, disk: Disk) {
    Distinct(walked) && (forall p | p in walked :: p in disk) && forall p | p in disk :: p in walked
  }

  lemma CacheHitIsFull(cfg: Config, disk: Disk, index: Index, seen: Disk)
    requires BuiltFrom(cfg, disk, index, seen) && CacheIsFresh(cfg, disk, Some(index))
    ensures IsFull(cfg, disk, index.records)
  {
    forall r | r in index.records
      ensures r.path in disk && Eligible(cfg, r.path, disk[r.path].content)
        && SameSource(r, FreshRecord(cfg, r.path, disk[r.path]))
    {
      assert r.path in Fingerprint(cfg, seen);
      assert r.path in Fingerprint(cfg, disk);
    }
    forall p | p in disk && Eligible(cfg, p, disk[p].content) ensures Find(index.records, p).Some? {
    }
  }

  /** A file is left out exactly when a full build would leave it out, and else its record is the one a
      full build would make. */
  predicate VisitRight(cfg: Config, p: string, f: File, index: Option<Index>) {
    var outcome := Visit(cfg, p, f, index);
    && (outcome.Skipped? <==> !Eligible(cfg, p, f.content))
    && (!outcome.Skipped? ==> SameSource(outcome.record, FreshRecord(cfg, p, f)))
  }

  /** Whichever way a record is come by, it is right. */
  lemma VisitIsRight(cfg: Config, disk: Disk, index: Option<Index>, p: string)
    requires Inv(cfg, disk, index) && HashInjective(cfg) && p in disk
    ensures VisitRight(cfg, p, disk[p], index)
  {
    var kept := Find(OldRecords(index), p);
    if kept.Some? {
      var seen :| BuiltFrom(cfg, disk, index.value, seen);
      assert kept.value in index.value.records;
      assert SameSource(kept.value, FreshRecord(cfg, p, seen[p]));
    }
  }

  /** The collected records are those of the visits. */
  lemma {:induction false} CollectedAreVisits(cfg: Config, disk: Disk, walked: seq<string>, index: Option<Index>)
    requires Distinct(walked) && forall p | p in walked :: p in disk
    ensures Distinct(Paths(Collected(cfg, disk, walked, index)))
    ensures forall r | r in Collected(cfg, disk, walked, index) ::
      && r.path in walked && !Visit(cfg, r.path, disk[r.path], index).Skipped?
      && Visit(cfg, r.path, disk[r.path], index).record == r
    ensures forall p | p in walked && !Visit(cfg, p, disk[p], index).Skipped? ::
      && Visit(cfg, p, disk[p], index).record in Collected(cfg, disk, walked, index)
      && Visit(cfg, p, disk[p], index).record.path == p
  {
    if walked != [] {
      var front, path := walked[..|walked| - 1], walked[|walked| - 1];
      assert walked == front + [path];
      CollectedAreVisits(cfg, disk, front, index);
      VisitKeepsPath(cfg, path, disk[path], index);
      hide Visit;
      var before, after := Collected(cfg, disk, front, index), Collected(cfg, disk, walked, index);
      assert Paths(after) == Paths(before) + (if Visit(cfg, path, disk[path], index).Skipped? then [] else [path]);
      assert path !in front;
      forall q | q in Paths(before) ensures q in front {
        var i :| 0 <= i < |before| && Paths(before)[i] == q;
        assert before[i] in before;
      }
    }
  }

  lemma VisitKeepsPath(cfg: Config, p: string, f: File, index: Option<Index>)
    ensures !Visit(cfg, p, f, index).Skipped? ==> Visit(cfg, p, f, index).record.path == p
  {
  }

  lemma PathLeIsPreorder()
    ensures Preorder(PathLe)
  {
    forall x, y, z ensures (PathLe(x, y) || PathLe(y, x)) && (PathLe(x, y) && PathLe(y, z) ==> PathLe(x, z)) {
      StringOrder(x.path, y.path, z.path);
    }
  }

  /** Sorting the collected records by path makes them an index. */
  lemma SortedCollection(records: seq<Record>)
    requires Distinct(Paths(records))
    ensures var r := Sort(records, PathLe);
      StrictlySorted(r) && (forall x :: x in r <==> x in records) && forall p :: p in Paths(r) <==> p in Paths(records)
  {
    hide Sort;
    var r := Sort(records, PathLe);
    PathLeIsPreorder();
    SortPermutes(records, PathLe);
    SortSorts(records, PathLe);
    SameMembers(r, records);
    SameMembers(records, r);
    MappedPermutes(r, records, (x: Record) => x.path);
    DistinctCounts(Paths(records));
    DistinctCounts(Paths(r));
    SameMembers(Paths(r), Paths(records));
    SameMembers(Paths(records), Paths(r));
    assert forall i | 0 <= i < |r| :: Paths(r)[i] == r[i].path;
  }

  /** What the loop leaves is full exactly when every visit was right. */
  lemma CollectionIsFull(cfg: Config, disk: Disk, walked: seq<string>, index: Option<Index>)
    requires Lists(walked, disk)
    ensures IsFull(cfg, disk, Sort(Collected(cfg, disk, walked, index), PathLe)) <==>
      forall p | p in disk :: VisitRight(cfg, p, disk[p], index)
  {
    hide Sort, Visit, Eligible, FreshRecord, Collected, SameSource;
    var records := Sort(Collected(cfg, disk, walked, index), PathLe);
    CollectedAreVisits(cfg, disk, walked, index);
    SortedCollection(Collected(cfg, disk, walked, index));
    PathsOrdered(records);
    forall p | p in disk && !Visit(cfg, p, disk[p], index).Skipped?
      ensures Visit(cfg, p, disk[p], index).record in records && Find(records, p).Some?
    {
      var r := Visit(cfg, p, disk[p], index).record;
      assert r in records && r.path == p;
    }
    forall p | p in disk && Find(records, p).Some? ensures !Visit(cfg, p, disk[p], index).Skipped? {
      assert Find(records, p).value in records;
    }
  }

  /** A build always leaves a full index of the disk it saw. */
  lemma BuildIsFull(cfg: Config, disk: Disk, walked: seq<string>, index: Option<Index>, now: int)
    requires Inv(cfg, disk, index) && HashInjective(cfg) && Lists(walked, disk)
    ensures var built := Build(cfg, disk, walked, index, now);
      IsFull(cfg, disk, built.records) && BuiltFrom(cfg, disk, built, disk)
  {
    hide Sort;
    if CacheIsFresh(cfg, disk, index) {
      var seen :| BuiltFrom(cfg, disk, index.value, seen);
      CacheHitIsFull(cfg, disk, index.value, seen);
    } else {
      forall p | p in disk ensures VisitRight(cfg, p, disk[p], index) {
        VisitIsRight(cfg, disk, index, p);
      }
      CollectionIsFull(cfg, disk, walked, index);
    }
  }

  datatype Step =
    | Write(path: string, content: string, mtime: int)
    | Touch(path: string, mtime: int)
    | Delete(path: string)
    | BuildNow(walked: seq<string>, now: int)

  datatype Project = Project(disk: Disk, index: Option<Index>)

  /** A build sees the whole disk at once. */
  predicate Feasible(s: Project, step: Step) {
    match step
    case Touch(p, _) => p in s.disk
    case BuildNow(walked, _) => Lists(walked, s.disk)
    case _ => true
  }

  /** Edits after a build carry a later time than the index. */
  predicate Timely(s: Project, step: Step) {
    (step.Write? || step.Touch?) && s.index.Some? ==> step.mtime > s.index.value.mtime
  }

  function Apply(cfg: Config, s: Project, step: Step): Project
    requires Feasible(s, step)
  {
    match step
    case Write(p, content, mtime) => s.(disk := s.disk[p := File(content, mtime)])
    case Touch(p, mtime) => s.(disk := s.disk[p := s.disk[p].(mtime := mtime)])
    case Delete(p) => s.(disk := s.disk - {p})
    case BuildNow(walked, now) => s.(index := Some(Build(cfg, s.disk, walked, s.index, now)))
  }

  /** Any edits and builds, whatever times the files and the index carry. */
  ghost predicate AnyHistory(cfg: Config, steps: seq<Step>, states: seq<Project>) {
    && |states| == |steps| + 1 && states[0].index == None
    && forall i | 0 <= i < |steps| :: Feasible(states[i], steps[i]) && states[i + 1] == Apply(cfg, states[i], steps[i])
  }

  ghost predicate History(cfg: Config, steps: seq<Step>, states: seq<Project>) {
    AnyHistory(cfg, steps, states) && forall i | 0 <= i < |steps| :: Timely(states[i], steps[i])
  }

  lemma StepKeepsInv(cfg: Config, s: Project, step: Step)
    requires HashInjective(cfg) && Inv(cfg, s.disk, s.index) && Feasible(s, step) && Timely(s, step)
    ensures Inv(cfg, Apply(cfg, s, step).disk, Apply(cfg, s, step).index)
  {
    hide IsFull;
    var t := Apply(cfg, s, step);
    if step.BuildNow? {
      BuildIsFull(cfg, s.disk, step.walked, s.index, step.now);
    } else if s.index.Some? {
      var seen :| BuiltFrom(cfg, s.disk, s.index.value, seen);
      assert BuiltFrom(cfg, t.disk, t.index.value, seen);
    }
  }

  lemma {:induction false} HistoryKeepsInv(cfg: Config, steps: seq<Step>, states: seq<Project>, i: nat)
    requires HashInjective(cfg) && History(cfg, steps, states) && i <= |steps|
    ensures Inv(cfg, states[i].disk, states[i].index)
  {
    if i > 0 {
      HistoryKeepsInv(cfg, steps, states, i - 1);
      StepKeepsInv(cfg, states[i - 1], steps[i - 1]);
      assert states[i - 1 + 1] == Apply(cfg, states[i - 1], steps[i - 1]);
    }
  }

  /** After any history, a build agrees source by source with a build from scratch, in whatever order
      either walks the files. */
  lemma IncrementalIsFull(cfg: Config, steps: seq<Step>, states: seq<Project>, i: nat,
                          walked: seq<string>, now: int, otherWalk: seq<string>, later: int)
    requires HashInjective(cfg) && History(cfg, steps, states) && i <= |steps|
    requires Lists(walked, states[i].disk) && Lists(otherWalk, states[i].disk)
    ensures var built := Build(cfg, states[i].disk, walked, states[i].index, now).records;
      var scratch := Build(cfg, states[i].disk, otherWalk, None, later).records;
      IsFull(cfg, states[i].disk, built) && Agree(built, scratch)
  {
    hide IsFull, Build, SameSource;
    HistoryKeepsInv(cfg, steps, states, i);
    BuildIsFull(cfg, states[i].disk, walked, states[i].index, now);
    BuildIsFull(cfg, states[i].disk, otherWalk, None, later);
    FullIsUnique(cfg, states[i].disk, Build(cfg, states[i].disk, walked, states[i].index, now).records,
                 Build(cfg, states[i].disk, otherWalk, None, later).records);
  }

  /** Spelled out: after any history, the records a build leaves are those of the files that are let in, not
      skipped and readable, and each holds the redacted text of its file, that text's hash, and its chunks. */
  lemma RecordsAreTheFiles(cfg: Config, steps: seq<Step>, states: seq<Project>, i: nat, walked: seq<string>, now: int)
    requires HashInjective(cfg) && History(cfg, steps, states) && i <= |steps| && Lists(walked, states[i].disk)
    ensures var disk := states[i].disk; var records := Build(cfg, disk, walked, states[i].index, now).records;
      && (forall r | r in records ::
            && r.path in disk && r.content == cfg.redact(disk[r.path].content).text
            && r.contentHash == cfg.hash(r.content) && r.chunks == cfg.chunks(r.path, r.content))
      && (forall p :: p in Paths(records) <==>
            && p in disk && cfg.allowed(p) && !cfg.skipped(p, disk[p].content)
            && cfg.readable(disk[p].content))
      && forall j, k | 0 <= j < k < |records| :: StringLe(records[j].path, records[k].path)
  {
    hide Build;
    var disk := states[i].disk;
    HistoryKeepsInv(cfg, steps, states, i);
    BuildIsFull(cfg, disk, walked, states[i].index, now);
    PathsEligible(cfg, disk, Build(cfg, disk, walked, states[i].index, now).records);
  }

  /** Without an index, the records also carry the times of the files and what was redacted from them. */
  lemma FirstBuildIsFresh(cfg: Config, disk: Disk, walked: seq<string>, now: int)
    requires Lists(walked, disk)
    ensures var index := Build(cfg, disk, walked, None, now);
      && index.mtime == now && (forall p :: p in index.fingerprint <==> p in disk && cfg.allowed(p))
      && forall r | r in index.records ::
           && r.path in disk && r.modifiedAt == disk[r.path].mtime
           && r.findings == cfg.redact(disk[r.path].content).findings
  {
    hide Sort;
    var records := Collected(cfg, disk, walked, None);
    CollectedAreVisits(cfg, disk, walked, None);
    SortedCollection(records);
  }

  // ---------------------------------------------------------------------------
  // Edits that carry no later time
  // ---------------------------------------------------------------------------

  /** The record was once made from a file as it was. */
  ghost predicate Original(cfg: Config, r: Record) {
    exists raw :: Eligible(cfg, r.path, raw) && r == FreshRecord(cfg, r.path, File(raw, r.modifiedAt))
  }

  /** What a stored index is at any time: sorted records of files that were there. */
  ghost predicate Stored(cfg: Config, index: Option<Index>) {
    index.Some? ==>
      && StrictlySorted(index.value.records)
      && forall r | r in index.value.records :: Original(cfg, r) && r.path in index.value.fingerprint
  }

  lemma BuildIsStored(cfg: Config, disk: Disk, walked: seq<string>, index: Option<Index>, now: int)
    requires Stored(cfg, index) && Lists(walked, disk)
    ensures Stored(cfg, Some(Build(cfg, disk, walked, index, now)))
  {
    hide Sort, Original, Eligible, FreshRecord, Collected, StrictlySorted, Visit;
    if !CacheIsFresh(cfg, disk, index) {
      CollectedAreVisits(cfg, disk, walked, index);
      SortedCollection(Collected(cfg, disk, walked, index));
      forall p | p in disk && !Visit(cfg, p, disk[p], index).Skipped?
        ensures Original(cfg, Visit(cfg, p, disk[p], index).record) && p in Fingerprint(cfg, disk)
      {
        VisitIsOriginal(cfg, p, disk[p], index);
      }
    }
  }

  lemma VisitIsOriginal(cfg: Config, p: string, f: File, index: Option<Index>)
    requires Stored(cfg, index) && !Visit(cfg, p, f, index).Skipped?
    ensures Original(cfg, Visit(cfg, p, f, index).record) && cfg.allowed(p)
  {
    hide Original;
    if Visit(cfg, p, f, index).Rebuilt? { FreshIsOriginal(cfg, p, f); }
  }

  lemma FreshIsOriginal(cfg: Config, p: string, f: File)
    requires Eligible(cfg, p, f.content)
    ensures Original(cfg, FreshRecord(cfg, p, f))
  {
    assert f == File(f.content, f.mtime);
  }

  lemma {:induction false} HistoryIsStored(cfg: Config, steps: seq<Step>, states: seq<Project>, i: nat)
    requires AnyHistory(cfg, steps, states) && i <= |steps|
    ensures Stored(cfg, states[i].index)
  {
    hide Original, Build, Stored;
    if i > 0 {
      HistoryIsStored(cfg, steps, states, i - 1);
      var s, step := states[i - 1], steps[i - 1];
      assert states[i - 1 + 1] == Apply(cfg, s, step);
      if step.BuildNow? { BuildIsStored(cfg, s.disk, step.walked, s.index, step.now); }
    } else {
      NothingStored(cfg);
    }
  }

  lemma NothingStored(cfg: Config)
    ensures Stored(cfg, None)
  {
  }

  /** The stored index, by its record or the lack of one, is not what a full build makes of the file. */
  predicate Stale(cfg: Config, p: string, f: File, index: Option<Index>) {
    var kept := Find(OldRecords(index), p);
    if Eligible(cfg, p, f.content) then kept.None? || kept.value.content != cfg.redact(f.content).text
    else kept.Some?
  }

  /** A build takes what is stored on a file as old as the index for granted: on a cache hit whether or not
      there is a record, else if there is one and the file is not to be skipped. */
  predicate Trusts(cfg: Config, disk: Disk, index: Option<Index>, p: string)
    requires p in disk
  {
    && index.Some? && cfg.allowed(p) && disk[p].mtime <= index.value.mtime
    && (CacheIsFresh(cfg, disk, index) ||
        (!cfg.skipped(p, disk[p].content) && Find(OldRecords(index), p).Some?))
  }

  /** A visit goes wrong exactly for a file no younger than the index whose stored record is stale. */
  lemma VisitRightExactly(cfg: Config, p: string, f: File, index: Option<Index>)
    requires Stored(cfg, index) && HashInjective(cfg)
    ensures VisitRight(cfg, p, f, index) <==>
      !(&& index.Some? && cfg.allowed(p) && f.mtime <= index.value.mtime && !cfg.skipped(p, f.content)
        && Find(OldRecords(index), p).Some? && Stale(cfg, p, f, index))
  {
    var kept := Find(OldRecords(index), p);
    if kept.Some? {
      assert kept.value in index.value.records;
      var raw :| Eligible(cfg, p, raw) && kept.value == FreshRecord(cfg, p, File(raw, kept.value.modifiedAt));
    }
  }

  /** What a cache hit passes on is full exactly when nothing stored is stale. */
  lemma CachedIsFullExactly(cfg: Config, disk: Disk, index: Option<Index>)
    requires Stored(cfg, index) && CacheIsFresh(cfg, disk, index)
    ensures IsFull(cfg, disk, index.value.records) <==>
      forall p | p in disk && cfg.allowed(p) :: !Stale(cfg, p, disk[p], index)
  {
    hide StrictlySorted, Original, FreshRecord, Eligible, SameSource;
    var records := index.value.records;
    forall r | r in records
      ensures r.path in disk && cfg.allowed(r.path) && Find(records, r.path) == Some(r)
      ensures SameSource(r, FreshRecord(cfg, r.path, disk[r.path])) <==>
        r.content == cfg.redact(disk[r.path].content).text
    {
      FindInSorted(records, r);
      assert r.path in Fingerprint(cfg, disk);
      SameWhenContentIs(cfg, r, disk[r.path]);
    }
    forall p | p in disk && Eligible(cfg, p, disk[p].content) ensures cfg.allowed(p) {
      EligibleIsAllowed(cfg, p, disk[p].content);
    }
  }

  lemma SameWhenContentIs(cfg: Config, r: Record, f: File)
    requires Original(cfg, r)
    ensures SameSource(r, FreshRecord(cfg, r.path, f)) <==> r.content == cfg.redact(f.content).text
  {
  }

  lemma EligibleIsAllowed(cfg: Config, p: string, content: string)
    ensures Eligible(cfg, p, content) ==> cfg.allowed(p)
  {
  }

  /** An index agrees with a full one exactly when it is full itself. */
  lemma AgreeingIsFull(cfg: Config, disk: Disk, a: seq<Record>, b: seq<Record>)
    requires IsFull(cfg, disk, b)
    ensures Agree(a, b) <==> IsFull(cfg, disk, a)
  {
    if IsFull(cfg, disk, a) {
      FullIsUnique(cfg, disk, a, b);
    } else if Agree(a, b) {
      hide Eligible, FreshRecord;
      PathsOrdered(b);
      forall i, j | 0 <= i < j < |a| ensures PathLe(a[i], a[j]) && a[i].path != a[j].path {
        assert SameSource(a[i], b[i]) && SameSource(a[j], b[j]);
        assert PathLe(b[i], b[j]) && b[i].path != b[j].path;
      }
      PathsOrdered(a);
      assert Paths(a) == Paths(b);
      forall r | r in a
        ensures r.path in disk && Eligible(cfg, r.path, disk[r.path].content)
          && SameSource(r, FreshRecord(cfg, r.path, disk[r.path]))
      {
        var i :| 0 <= i < |a| && a[i] == r;
        assert SameSource(a[i], b[i]) && b[i] in b;
      }
    }
  }

  /** After any edits and builds, whatever times they left, a build agrees with one from scratch exactly if
      nothing it takes for granted is stale. */
  lemma RightUnlessTrustIsStale(cfg: Config, steps: seq<Step>, states: seq<Project>,
                                walked: seq<string>, now: int, otherWalk: seq<string>, later: int)
    requires HashInjective(cfg) && AnyHistory(cfg, steps, states)
    requires Lists(walked, states[|steps|].disk) && Lists(otherWalk, states[|steps|].disk)
    ensures var s := states[|steps|];
      Agree(Build(cfg, s.disk, walked, s.index, now).records, Build(cfg, s.disk, otherWalk, None, later).records)
      <==> forall p | p in s.disk && Trusts(cfg, s.disk, s.index, p) :: !Stale(cfg, p, s.disk[p], s.index)
  {
    hide IsFull, Sort, Collected, Stale, Stored, Eligible, CacheIsFresh;
    var s := states[|steps|];
    HistoryIsStored(cfg, steps, states, |steps|);
    BuildIsFull(cfg, s.disk, otherWalk, None, later);
    AgreeingIsFull(cfg, s.disk, Build(cfg, s.disk, walked, s.index, now).records,
                   Build(cfg, s.disk, otherWalk, None, later).records);
    if CacheIsFresh(cfg, s.disk, s.index) {
      CachedIsFullExactly(cfg, s.disk, s.index);
      FreshMeansOld(cfg, s.disk, s.index);
    } else {
      CollectionIsFull(cfg, s.disk, walked, s.index);
      forall p | p in s.disk
        ensures VisitRight(cfg, p, s.disk[p], s.index) <==>
          (Trusts(cfg, s.disk, s.index, p) ==> !Stale(cfg, p, s.disk[p], s.index))
      {
        VisitRightExactly(cfg, p, s.disk[p], s.index);
      }
    }
  }

  lemma FreshMeansOld(cfg: Config, disk: Disk, index: Option<Index>)
    requires CacheIsFresh(cfg, disk, index)
    ensures forall p | p in disk :: Trusts(cfg, disk, index, p) <==> cfg.allowed(p)
  {
  }

  /** So the strict order of times is needed: an edit in the same tick as the build goes unseen. */
  lemma SameTickIsMissed(cfg: Config, p: string, a: string, b: string, t: int)
    requires cfg.allowed(p) && a != b
    ensures var index := Build(cfg, map[p := File(a, t)], [p], None, t);
      Build(cfg, map[p := File(b, t)], [p], Some(index), t + 1) == index
  {
    hide Sort, Collected;
    var d1, d2 := map[p := File(a, t)], map[p := File(b, t)];
    assert Fingerprint(cfg, d1) == {p} && Fingerprint(cfg, d2) == {p};
  }

  // ---------------------------------------------------------------------------
  // The list of redactions
  // ---------------------------------------------------------------------------

  /** Two contents a file may have that redact to one text for different reasons. */
  ghost predicate Ambiguous(cfg: Config) {
    exists p, a, b :: Eligible(cfg, p, a) && Eligible(cfg, p, b) &&
      cfg.redact(a).text == cfg.redact(b).text && cfg.redact(a).findings != cfg.redact(b).findings
  }

  predicate RedactionsRight(cfg: Config, disk: Disk, records: seq<Record>) {
    forall r | r in records && r.path in disk :: r.findings == cfg.redact(disk[r.path].content).findings
  }

  ghost predicate RedactionsAlwaysRight(cfg: Config) {
    forall steps: seq<Step>, states: seq<Project>, walked, now
      | History(cfg, steps, states) && Lists(walked, states[|steps|].disk) ::
      RedactionsRight(cfg, states[|steps|].disk,
                      Build(cfg, states[|steps|].disk, walked, states[|steps|].index, now).records)
  }

  lemma UnambiguousIsRight(cfg: Config, steps: seq<Step>, states: seq<Project>, walked: seq<string>, now: int)
    requires HashInjective(cfg) && !Ambiguous(cfg)
    requires History(cfg, steps, states) && Lists(walked, states[|steps|].disk)
    ensures var s := states[|steps|];
      RedactionsRight(cfg, s.disk, Build(cfg, s.disk, walked, s.index, now).records)
  {
    hide Build;
    var s := states[|steps|];
    var records := Build(cfg, s.disk, walked, s.index, now).records;
    HistoryKeepsInv(cfg, steps, states, |steps|);
    HistoryIsStored(cfg, steps, states, |steps|);
    BuildIsFull(cfg, s.disk, walked, s.index, now);
    BuildIsStored(cfg, s.disk, walked, s.index, now);
    forall r | r in records ensures r.findings == cfg.redact(s.disk[r.path].content).findings {
      assert Original(cfg, r);
      var raw :| Eligible(cfg, r.path, raw) && r == FreshRecord(cfg, r.path, File(raw, r.modifiedAt));
      assert Eligible(cfg, r.path, s.disk[r.path].content);
    }
  }

  /** Write `a`, build, write `b`, build: the hash of the redacted text says nothing changed. */
  lemma SecondBuildReuses(cfg: Config, p: string, a: string, b: string, first: Index)
    requires Eligible(cfg, p, a) && Eligible(cfg, p, b) && cfg.redact(a).text == cfg.redact(b).text
    requires first.records == [FreshRecord(cfg, p, File(a, 1))] && first.mtime == 1
    ensures Build(cfg, map[p := File(b, 2)], [p], Some(first), 3).records == [FreshRecord(cfg, p, File(a, 1))]
  {
    var d2 := map[p := File(b, 2)];
    FindOnly(first.records, p);
    assert p in d2 && cfg.allowed(p) && d2[p].mtime > 1;
    SingleBuild(cfg, d2, p, Some(first), 3);
  }

  lemma StaleRedactions(cfg: Config, p: string, a: string, b: string)
    requires Eligible(cfg, p, a) && Eligible(cfg, p, b)
    requires cfg.redact(a).text == cfg.redact(b).text && cfg.redact(a).findings != cfg.redact(b).findings
    ensures !RedactionsAlwaysRight(cfg)
  {
    var d1, d2 := map[p := File(a, 1)], map[p := File(b, 2)];
    var first := Build(cfg, d1, [p], None, 1);
    SingleBuild(cfg, d1, p, None, 1);
    SecondBuildReuses(cfg, p, a, b, first);
    var steps, states := StaleHistory(cfg, p, a, b);
    var second := Build(cfg, d2, [p], Some(first), 3).records;
    assert second[0] in second && second[0].path == p;
    assert Lists([p], states[|steps|].disk) && !RedactionsRight(cfg, d2, second);
  }

  lemma StaleHistory(cfg: Config, p: string, a: string, b: string) returns (steps: seq<Step>, states: seq<Project>)
    ensures History(cfg, steps, states)
    ensures states[|steps|] ==
      Project(map[p := File(b, 2)], Some(Build(cfg, map[p := File(a, 1)], [p], None, 1)))
  {
    hide Build;
    var d1, d2 := map[p := File(a, 1)], map[p := File(b, 2)];
    var first := Build(cfg, d1, [p], None, 1);
    steps := [Write(p, a, 1), BuildNow([p], 1), Write(p, b, 2)];
    states := [Project(map[], None), Project(d1, None), Project(d1, Some(first)), Project(d2, Some(first))];
    BuiltAt(cfg, d1, [p], None, 1);
    assert map[][p := File(a, 1)] == d1 && d1[p := File(b, 2)] == d2;
    assert Apply(cfg, states[0], steps[0]) == states[1];
    assert Apply(cfg, states[1], steps[1]) == states[2];
    assert Apply(cfg, states[2], steps[2]) == states[3];
  }

  lemma BuiltAt(cfg: Config, disk: Disk, walked: seq<string>, index: Option<Index>, now: int)
    requires (forall p | p in walked :: p in disk) && !CacheIsFresh(cfg, disk, index)
    ensures Build(cfg, disk, walked, index, now).mtime == now
  {
  }

  lemma FindOnly(records: seq<Record>, p: string)
    requires |records| == 1 && records[0].path == p
    ensures Find(records, p) == Some(records[0])
  {
  }

  lemma SingleBuild(cfg: Config, disk: Disk, p: string, index: Option<Index>, now: int)
    requires disk.Keys == {p} && !CacheIsFresh(cfg, disk, index)
    ensures var outcome := Visit(cfg, p, disk[p], index);
      Build(cfg, disk, [p], index, now).records == if outcome.Skipped? then [] else [outcome.record]
  {
    hide Visit;
    assert [p][..0] == [];
    var outcome := Visit(cfg, p, disk[p], index);
    assert Collected(cfg, disk, [p][..0], index) == [];
    if !outcome.Skipped? {
      assert Collected(cfg, disk, [p], index) == [outcome.record];
      assert [outcome.record][1..] == [];
      assert Sort([outcome.record], PathLe) == [outcome.record];
    } else {
      assert Collected(cfg, disk, [p], index) == [];
    }
  }

  /** The redactions a build reports (and with them the visibility) are those of the files as they are,
      over every history, exactly when the redacted text determines what was redacted. */
  lemma RedactionsRightUnlessAmbiguous(cfg: Config)
    requires HashInjective(cfg)
    ensures RedactionsAlwaysRight(cfg) <==> !Ambiguous(cfg)
  {
    hide Build, Feasible, Timely, Apply, Eligible;
    if !Ambiguous(cfg) {
      forall steps: seq<Step>, states: seq<Project>, walked, now
        | History(cfg, steps, states) && Lists(walked, states[|steps|].disk)
        ensures RedactionsRight(cfg, states[|steps|].disk,
                  Build(cfg, states[|steps|].disk, walked, states[|steps|].index, now).records)
      {
        UnambiguousIsRight(cfg, steps, states, walked, now);
      }
    } else {
      var p, a, b :| Eligible(cfg, p, a) && Eligible(cfg, p, b) &&
        cfg.redact(a).text == cfg.redact(b).text && cfg.redact(a).findings != cfg.redact(b).findings;
      StaleRedactions(cfg, p, a, b);
    }
  }

  /** The stored record has the file's redacted text, but redactions of another version of it. */
  predicate StaleFindings(cfg: Config, path: string, f: File, index: Option<Index>) {
    var kept := Find(OldRecords(index), path);
    kept.Some? && kept.value.content == cfg.redact(f.content).text
      && kept.value.findings != cfg.redact(f.content).findings
  }

  lemma FindInSorted(records: seq<Record>, r: Record)
    requires StrictlySorted(records) && r in records
    ensures Find(records, r.path) == Some(r)
  {
    var other := Find(records, r.path);
    assert other.Some?;
    var i :| 0 <= i < |records| && records[i] == r;
    var j :| 0 <= j < |records| && records[j] == other.value;
    assert i == j;
  }

  /** A visited file is recorded with stale redactions exactly if its stored record says so. */
  lemma VisitFindings(cfg: Config, disk: Disk, index: Option<Index>, p: string)
    requires Inv(cfg, disk, index) && HashInjective(cfg) && p in disk && Eligible(cfg, p, disk[p].content)
    ensures var outcome := Visit(cfg, p, disk[p], index);
      !outcome.Skipped? && outcome.record.path == p &&
      (outcome.record.findings == cfg.redact(disk[p].content).findings <==> !StaleFindings(cfg, p, disk[p], index))
  {
    VisitIsRight(cfg, disk, index, p);
    var kept := Find(OldRecords(index), p);
    if kept.Some? {
      var seen :| BuiltFrom(cfg, disk, index.value, seen);
      assert kept.value in index.value.records;
      assert SameSource(kept.value, FreshRecord(cfg, p, seen[p]));
    }
  }

  lemma CachedRedactions(cfg: Config, disk: Disk, index: Index)
    requires IsFull(cfg, disk, index.records)
    ensures RedactionsRight(cfg, disk, index.records) <==>
      forall p | p in disk && Eligible(cfg, p, disk[p].content) :: !StaleFindings(cfg, p, disk[p], Some(index))
  {
    hide Eligible, StrictlySorted;
    forall r | r in index.records ensures Find(index.records, r.path) == Some(r) {
      FindInSorted(index.records, r);
    }
    forall p | p in disk && Eligible(cfg, p, disk[p].content)
      ensures Find(index.records, p).Some? && Find(index.records, p).value in index.records
    {
    }
  }

  lemma RebuiltRedactions(cfg: Config, disk: Disk, walked: seq<string>, index: Option<Index>)
    requires Inv(cfg, disk, index) && HashInjective(cfg) && Lists(walked, disk)
    ensures RedactionsRight(cfg, disk, Sort(Collected(cfg, disk, walked, index), PathLe)) <==>
      forall p | p in disk && Eligible(cfg, p, disk[p].content) :: !StaleFindings(cfg, p, disk[p], index)
  {
    hide Visit, Inv, Eligible, StaleFindings, Collected, Sort, FreshRecord, SameSource;
    var records := Collected(cfg, disk, walked, index);
    SortPermutes(records, PathLe);
    SameMembers(Sort(records, PathLe), records);
    SameMembers(records, Sort(records, PathLe));
    CollectedAreVisits(cfg, disk, walked, index);
    forall p | p in disk && !Visit(cfg, p, disk[p], index).Skipped? ensures Eligible(cfg, p, disk[p].content) {
      VisitIsRight(cfg, disk, index, p);
    }
    forall p | p in disk && Eligible(cfg, p, disk[p].content)
      ensures !Visit(cfg, p, disk[p], index).Skipped? && Visit(cfg, p, disk[p], index).record in records
      ensures Visit(cfg, p, disk[p], index).record.path == p
      ensures Visit(cfg, p, disk[p], index).record.findings == cfg.redact(disk[p].content).findings <==>
        !StaleFindings(cfg, p, disk[p], index)
    {
      VisitFindings(cfg, disk, index, p);
    }
  }

  /** For the build at hand: after any history the redactions it reports are those of the files as they
      are exactly when no file that will be indexed has a stored record with its redacted text and other
      redactions. */
  lemma RedactionsRightThisBuild(cfg: Config, steps: seq<Step>, states: seq<Project>, walked: seq<string>, now: int)
    requires HashInjective(cfg) && History(cfg, steps, states) && Lists(walked, states[|steps|].disk)
    ensures var s := states[|steps|];
      RedactionsRight(cfg, s.disk, Build(cfg, s.disk, walked, s.index, now).records) <==>
      forall p | p in s.disk && Eligible(cfg, p, s.disk[p].content) :: !StaleFindings(cfg, p, s.disk[p], s.index)
  {
    hide Eligible, StaleFindings, IsFull, RedactionsRight, Collected, Sort, StrictlySorted;
    var s := states[|steps|];
    HistoryKeepsInv(cfg, steps, states, |steps|);
    if CacheIsFresh(cfg, s.disk, s.index) {
      BuildIsFull(cfg, s.disk, walked, s.index, now);
      CachedRedactions(cfg, s.disk, s.index.value);
    } else {
      RebuiltRedactions(cfg, s.disk, walked, s.index);
    }
  }
}
