/** internal/urldownloader/job.go: the HTTP range requests for a range of pieces. */
module UrlJobs {
  import opened Common
  import opened PieceLayout
  import opened Storage

  datatype Job = Job(filename: string, rangeBegin: nat, length: nat)

  function Name(names: seq<string>, s: Section): string {
    if s.file < |names| then names[s.file] else ""
  }

  function JobOf(names: seq<string>, s: Section): Job {
    Job(Name(names, s), s.offset, s.length)
  }

  /** Jobs already listed, and the one being put together. */
  datatype Pending = Pending(jobs: seq<Job>, job: Job)

  /** One turn of the inner loop; `first` is its test i == 0 && j == 0. */
  function Step(names: seq<string>, p: Pending, s: Section, first: bool): Pending {
    if first then Pending(p.jobs, JobOf(names, s))
    else if Name(names, s) == p.job.filename then Pending(p.jobs, p.job.(length := p.job.length + s.length))
    else Pending(Flushed(p), JobOf(names, s))
  }

  function Flushed(p: Pending): seq<Job> {
    if p.job.length > 0 then p.jobs + [p.job] else p.jobs
  }

  /** After all sections of `all`; `fromStart` says the range begins with piece 0. */
  ghost function Gathered(names: seq<string>, all: seq<Section>, fromStart: bool): Pending {
    if all == [] then Pending([], Job("", 0, 0))
    else Step(names, Gathered(names, all[..|all| - 1], fromStart), all[|all| - 1], fromStart && |all| == 1)
  }

  method CreateJobs(pieces: seq<Piece>, names: seq<string>, begin: nat, end: nat) returns (jobs: seq<Job>)
    requires begin <= end <= |pieces|
    requires begin == 0 && end > 0 ==> pieces[0].sections != []
    ensures jobs == Flushed(Gathered(names, Sections(pieces, begin, end), begin == 0))
  {
    if begin == end { return []; }
    hide Gathered, Step, Sections, Flushed;
    var p := Pending([], Job("", 0, 0));
    ghost var before := [];
    NothingGathered(names, begin == 0);
    SectionsGrow(pieces, begin, begin);
    for i := begin to end
      invariant before == Sections(pieces, begin, i) && p == Gathered(names, before, begin == 0)
      invariant i == 0 <==> begin == 0 && before == []
    {
      SectionsGrow(pieces, begin, i);
      p := AddPiece(names, p, pieces[i].sections, i, before, begin == 0);
      before := before + pieces[i].sections;
    }
    jobs := Flushed(p);
  }

  lemma SectionsGrow(pieces: seq<Piece>, a: nat, z: nat)
    requires a <= z < |pieces|
    ensures Sections(pieces, a, z + 1) == Sections(pieces, a, z) + pieces[z].sections
    ensures a == z ==> Sections(pieces, a, z) == []
  {
  }

  lemma NothingGathered(names: seq<string>, fromStart: bool)
    ensures Gathered(names, [], fromStart) == Pending([], Job("", 0, 0))
  {
  }

  lemma GatheredSnoc(names: seq<string>, all: seq<Section>, s: Section, fromStart: bool)
    ensures Gathered(names, all + [s], fromStart)
              == Step(names, Gathered(names, all, fromStart), s, fromStart && all == [])
  {
    assert (all + [s])[..|all|] == all;
  }

  /** The inner loop, over the sections of piece i. */
  method AddPiece(names: seq<string>, p0: Pending, data: seq<Section>, i: nat, ghost before: seq<Section>,
                  ghost fromStart: bool)
    returns (p: Pending)
    requires p0 == Gathered(names, before, fromStart) && (i == 0 <==> fromStart && before == [])
    ensures p == Gathered(names, before + data, fromStart)
  {
    hide Gathered, Step;
    p := p0;
    assert before + data[..0] == before;
    for j := 0 to |data|
      invariant p == Gathered(names, before + data[..j], fromStart)
    {
      GatheredSnoc(names, before + data[..j], data[j], fromStart);
      assert before + data[..j + 1] == before + data[..j] + [data[j]];
      p := Step(names, p, data[j], i == 0 && j == 0);
    }
    assert data[..|data|] == data;
  }

  // ---- what the jobs fetch

  /** The web seed serves each file of the torrent under its name. */
  ghost predicate Serves(serve: string -> bytes, names: seq<string>, files: seq<bytes>) {
    |names| == |files| && forall f :: 0 <= f < |files| ==> serve(names[f]) == files[f]
  }

  ghost function JobBytes(serve: string -> bytes, j: Job): bytes {
    if j.rangeBegin + j.length <= |serve(j.filename)| then serve(j.filename)[j.rangeBegin..j.rangeBegin + j.length]
    else []
  }

  ghost predicate InFile(serve: string -> bytes, j: Job) {
    j.length > 0 && j.rangeBegin + j.length <= |serve(j.filename)|
  }

  ghost function Fetched(serve: string -> bytes, jobs: seq<Job>): bytes {
    if jobs == [] then [] else Fetched(serve, jobs[..|jobs| - 1]) + JobBytes(serve, jobs[|jobs| - 1])
  }

  /** The jobs as they should be: one for each stretch of sections in the same file. */
  ghost function Wanted(names: seq<string>, all: seq<Section>): Pending {
    if all == [] then Pending([], Job("", 0, 0))
    else
      var front, s := all[..|all| - 1], all[|all| - 1];
      var p := Wanted(names, front);
      if front != [] && s.file == front[|front| - 1].file
      then Pending(p.jobs, p.job.(length := p.job.length + s.length))
      else Pending(Flushed(p), JobOf(names, s))
  }

  /** No two files with content are merged into one job, and away from piece 0 the first
      file has a name or is read from its beginning. */
  ghost predicate Separated(names: seq<string>, all: seq<Section>, fromStart: bool) {
    NoClash(names, all) && StartsRight(names, all, fromStart)
  }

  ghost predicate NoClash(names: seq<string>, all: seq<Section>) {
    forall i, j :: 0 <= i < j < |all| ==> !Clash(names, all, i, j)
  }

  /** Content of two files, with only this one name from the one to the other. */
  ghost predicate Clash(names: seq<string>, all: seq<Section>, i: nat, j: nat) {
    && i < j < |all| && all[i].length > 0 && all[j].length > 0 && all[i].file != all[j].file
    && forall m :: i <= m < j ==> Name(names, all[m]) == Name(names, all[j])
  }

  ghost predicate StartsRight(names: seq<string>, all: seq<Section>, fromStart: bool) {
    fromStart || all == [] || Name(names, all[0]) != "" || all[0].offset == 0
  }

  ghost predicate Good(serve: string -> bytes, files: seq<bytes>, names: seq<string>, all: seq<Section>, p: Pending) {
    && all != []
    && (forall k :: 0 <= k < |p.jobs| ==> InFile(serve, p.jobs[k]))
    && Fetched(serve, p.jobs) + JobBytes(serve, p.job) == Bytes(files, all)
    && var s := all[|all| - 1];
    && p.job.filename == Name(names, s) && p.job.rangeBegin + p.job.length == s.offset + s.length
    && p.job.rangeBegin + p.job.length <= |serve(p.job.filename)|
  }

  lemma FetchedSnoc(serve: string -> bytes, jobs: seq<Job>, j: Job)
    ensures Fetched(serve, jobs + [j]) == Fetched(serve, jobs) + JobBytes(serve, j)
  {
    assert (jobs + [j])[..|jobs|] == jobs;
  }

  lemma JobOfSection(serve: string -> bytes, files: seq<bytes>, names: seq<string>, s: Section)
    requires Serves(serve, names, files) && Inside(Lengths(files), s)
    ensures serve(Name(names, s)) == files[s.file] && s.offset + s.length <= |files[s.file]|
    ensures JobBytes(serve, JobOf(names, s)) == SectionBytes(files, s)
  {
  }

  lemma GoodStep(serve: string -> bytes, files: seq<bytes>, names: seq<string>, all: seq<Section>, s: Section)
    requires Serves(serve, names, files) && all != []
    requires Good(serve, files, names, all, Wanted(names, all)) && Inside(Lengths(files), s)
    requires Follows(Lengths(files), all[|all| - 1], s)
    ensures Good(serve, files, names, all + [s], Wanted(names, all + [s]))
  {
    hide Good, Serves;
    var p := Wanted(names, all);
    assert (all + [s])[..|all|] == all;
    if s.file == all[|all| - 1].file {
      SameFile(serve, files, names, all, s, p);
    } else {
      NextFile(serve, files, names, all, s, p);
    }
  }

  lemma SameFile(serve: string -> bytes, files: seq<bytes>, names: seq<string>, all: seq<Section>, s: Section,
                 p: Pending)
    requires Serves(serve, names, files) && all != [] && (all + [s])[..|all|] == all
    requires Good(serve, files, names, all, p) && Inside(Lengths(files), s)
    requires s.file == all[|all| - 1].file && s.offset == all[|all| - 1].offset + all[|all| - 1].length
    ensures Good(serve, files, names, all + [s], Pending(p.jobs, p.job.(length := p.job.length + s.length)))
  {
    hide Fetched, Serves;
    JobOfSection(serve, files, names, s);
    assert Bytes(files, all + [s]) == Bytes(files, all) + SectionBytes(files, s);
    var d, a, m, z := files[s.file], p.job.rangeBegin, s.offset, s.offset + s.length;
    SliceConcat(d, a, m, z);
    Grow(Fetched(serve, p.jobs), d[a..m], d[m..z]);
  }

  lemma NextFile(serve: string -> bytes, files: seq<bytes>, names: seq<string>, all: seq<Section>, s: Section,
                 p: Pending)
    requires Serves(serve, names, files) && all != [] && (all + [s])[..|all|] == all
    requires Good(serve, files, names, all, p) && Inside(Lengths(files), s)
    ensures Good(serve, files, names, all + [s], Pending(Flushed(p), JobOf(names, s)))
  {
    hide Fetched, Serves, Inside;
    JobOfSection(serve, files, names, s);
    FlushedFetches(serve, p);
    assert Bytes(files, all + [s]) == Bytes(files, all) + SectionBytes(files, s);
  }

  lemma GoodFlushed(serve: string -> bytes, files: seq<bytes>, names: seq<string>, all: seq<Section>, p: Pending)
    requires Good(serve, files, names, all, p)
    ensures (forall k :: 0 <= k < |Flushed(p)| ==> InFile(serve, Flushed(p)[k]))
              && Fetched(serve, Flushed(p)) == Bytes(files, all)
  {
    FlushedFetches(serve, p);
  }

  lemma FlushedFetches(serve: string -> bytes, p: Pending)
    ensures Fetched(serve, Flushed(p)) == Fetched(serve, p.jobs) + JobBytes(serve, p.job)
  {
    FetchedSnoc(serve, p.jobs, p.job);
    if p.job.length == 0 { assert JobBytes(serve, p.job) == []; }
  }

  lemma Grow(f: bytes, a: bytes, b: bytes)
    ensures f + (a + b) == f + a + b
  {
  }

  lemma GoodFirst(serve: string -> bytes, files: seq<bytes>, names: seq<string>, s: Section)
    requires Serves(serve, names, files) && Inside(Lengths(files), s)
    ensures Good(serve, files, names, [s], Wanted(names, [s]))
  {
    JobOfSection(serve, files, names, s);
    assert [s][..0] == [];
    assert [] + SectionBytes(files, s) == SectionBytes(files, s);
  }

  lemma ChainLast(lengths: seq<nat>, all: seq<Section>)
    requires Chain(lengths, all) && |all| > 1
    ensures Chain(lengths, all[..|all| - 1]) && Follows(lengths, all[..|all| - 1][|all| - 2], all[|all| - 1])
  {
  }

  /** The wanted jobs fetch the sections, whatever the files are called. */
  lemma {:induction false} WantedGood(serve: string -> bytes, files: seq<bytes>, names: seq<string>, all: seq<Section>)
    requires Serves(serve, names, files) && all != [] && Chain(Lengths(files), all)
    requires forall k :: 0 <= k < |all| ==> Inside(Lengths(files), all[k])
    ensures Good(serve, files, names, all, Wanted(names, all))
    decreases |all|
  {
    hide Good, Serves, Inside, Wanted, Chain, Follows;
    var front, s := all[..|all| - 1], all[|all| - 1];
    if front == [] {
      assert all == [s];
      GoodFirst(serve, files, names, s);
    } else {
      ChainLast(Lengths(files), all);
      WantedGood(serve, files, names, front);
      GoodStep(serve, files, names, front, s);
      assert front + [s] == all;
    }
  }

  // ---- exactly when the jobs are the wanted ones

  /** Section i has content and only its name occurs from there to the end. */
  ghost predicate InRun(names: seq<string>, all: seq<Section>, i: nat) {
    i < |all| && all[i].length > 0 && forall m :: i <= m < |all| ==> Name(names, all[m]) == Name(names, all[|all| - 1])
  }

  /** Section i has content and lies in the last file. */
  ghost predicate InLastFile(all: seq<Section>, i: nat) {
    i < |all| && all[i].length > 0 && all[i].file == all[|all| - 1].file
  }

  lemma RunSnoc(names: seq<string>, all: seq<Section>, s: Section, i: nat)
    ensures InRun(names, all + [s], i) <==>
              if i == |all| then s.length > 0 else InRun(names, all, i) && Name(names, s) == Name(names, all[|all| - 1])
  {
    var grown := all + [s];
    if i < |all| {
      assert grown[i] == all[i];
      if InRun(names, grown, i) {
        assert Name(names, grown[|all| - 1]) == Name(names, s);
        forall m | i <= m < |all| ensures Name(names, all[m]) == Name(names, all[|all| - 1]) {
          assert grown[m] == all[m];
        }
      }
    }
  }

  lemma {:induction false} FilesAscend(lengths: seq<nat>, all: seq<Section>, i: nat, j: nat)
    requires Chain(lengths, all) && i <= j < |all|
    ensures all[i].file <= all[j].file
    decreases j
  {
    if i < j {
      FilesAscend(lengths, all, i, j - 1);
      assert Follows(lengths, all[j - 1], all[j]);
    }
  }

  lemma LastFileSnoc(lengths: seq<nat>, all: seq<Section>, s: Section, i: nat)
    requires Chain(lengths, all + [s])
    ensures InLastFile(all + [s], i) <==>
              if i == |all| then s.length > 0 else InLastFile(all, i) && s.file == all[|all| - 1].file
  {
    if i < |all| {
      var grown := all + [s];
      FilesAscend(lengths, grown, i, |all| - 1);
      FilesAscend(lengths, grown, |all| - 1, |all|);
      assert grown[i] == all[i] && grown[|all| - 1] == all[|all| - 1];
    }
  }

  /** The two jobs being put together name the last file; the loop's holds the content of
      the last run of one name, the wanted one that of the last file. */
  ghost predicate JobsHold(names: seq<string>, all: seq<Section>, p: Pending, q: Pending) {
    && (all != [] ==> p.job.filename == q.job.filename == Name(names, all[|all| - 1]))
    && (p.job.length > 0 <==> exists i :: InRun(names, all, i))
    && (q.job.length > 0 <==> exists i :: InLastFile(all, i))
  }

  lemma {:induction false} HoldAlways(names: seq<string>, lengths: seq<nat>, all: seq<Section>, fromStart: bool)
    requires Chain(lengths, all)
    ensures JobsHold(names, all, Gathered(names, all, fromStart), Wanted(names, all))
  {
    if all != [] {
      var front, s := all[..|all| - 1], all[|all| - 1];
      assert all == front + [s];
      HoldAlways(names, lengths, front, fromStart);
      HoldStep(names, lengths, front, s, fromStart);
    }
  }

  lemma HoldStep(names: seq<string>, lengths: seq<nat>, all: seq<Section>, s: Section, fromStart: bool)
    requires Chain(lengths, all + [s]) && JobsHold(names, all, Gathered(names, all, fromStart), Wanted(names, all))
    ensures JobsHold(names, all + [s], Gathered(names, all + [s], fromStart), Wanted(names, all + [s]))
  {
    hide Chain, InRun, InLastFile, Gathered, Wanted;
    GatheredSnoc(names, all, s, fromStart);
    WantedSnoc(names, all, s);
    RunGrows(names, all, s);
    LastFileGrows(lengths, all, s);
    if all == [] { NothingGathered(names, fromStart); NothingWanted(names); }
  }

  lemma RunGrows(names: seq<string>, all: seq<Section>, s: Section)
    ensures (exists i :: InRun(names, all + [s], i)) <==>
              || s.length > 0
              || (all != [] && Name(names, s) == Name(names, all[|all| - 1]) && exists i :: InRun(names, all, i))
  {
    forall i: nat ensures InRun(names, all + [s], i) <==>
              if i == |all| then s.length > 0 else InRun(names, all, i) && Name(names, s) == Name(names, all[|all| - 1])
    {
      RunSnoc(names, all, s, i);
    }
    assert s.length > 0 ==> InRun(names, all + [s], |all|);
  }

  lemma LastFileGrows(lengths: seq<nat>, all: seq<Section>, s: Section)
    requires Chain(lengths, all + [s])
    ensures (exists i :: InLastFile(all + [s], i)) <==>
              s.length > 0 || (all != [] && s.file == all[|all| - 1].file && exists i :: InLastFile(all, i))
  {
    forall i: nat ensures InLastFile(all + [s], i) <==>
              if i == |all| then s.length > 0 else InLastFile(all, i) && s.file == all[|all| - 1].file
    {
      LastFileSnoc(lengths, all, s, i);
    }
    assert s.length > 0 ==> InLastFile(all + [s], |all|);
  }

  lemma WantedSnoc(names: seq<string>, all: seq<Section>, s: Section)
    ensures Wanted(names, all + [s])
         == var p := Wanted(names, all);
            if all != [] && s.file == all[|all| - 1].file
            then Pending(p.jobs, p.job.(length := p.job.length + s.length))
            else Pending(Flushed(p), JobOf(names, s))
  {
    assert (all + [s])[..|all|] == all;
  }

  lemma NothingWanted(names: seq<string>)
    ensures Wanted(names, []) == Pending([], Job("", 0, 0))
  {
  }

  lemma NoClashSnoc(names: seq<string>, all: seq<Section>, s: Section)
    ensures NoClash(names, all + [s]) <==> NoClash(names, all) && !exists i :: Clash(names, all + [s], i, |all|)
  {
    var grown := all + [s];
    forall i: nat, j: nat | j < |all| ensures Clash(names, grown, i, j) <==> Clash(names, all, i, j) {
      if i < j {
        assert forall m :: i <= m <= j ==> grown[m] == all[m];
      }
    }
  }

  /** A clash with a new section, told from the run it joins. */
  lemma ClashSnoc(names: seq<string>, all: seq<Section>, s: Section, i: nat)
    requires all != []
    ensures Clash(names, all + [s], i, |all|) <==>
              InRun(names, all, i) && s.length > 0 && Name(names, s) == Name(names, all[|all| - 1])
                  && all[i].file != s.file
  {
    if i < |all| {
      var grown := all + [s];
      assert forall m :: 0 <= m < |all| ==> grown[m] == all[m];
      if Clash(names, grown, i, |all|) {
        assert Name(names, grown[|all| - 1]) == Name(names, s);
        forall m | i <= m < |all| ensures Name(names, all[m]) == Name(names, all[|all| - 1]) {
          assert grown[m] == all[m];
        }
      }
    }
  }

  /** The loop appends content to a job that holds content of other files only, or that
      holds the content of the file before. */
  ghost predicate Merges(names: seq<string>, all: seq<Section>, s: Section, p: Pending, q: Pending) {
    && all != [] && s.length > 0 && Name(names, s) == Name(names, all[|all| - 1])
    && p.job.length > 0 && (s.file != all[|all| - 1].file || q.job.length == 0)
  }

  lemma MergeClashes(names: seq<string>, lengths: seq<nat>, all: seq<Section>, s: Section, p: Pending, q: Pending)
    requires Chain(lengths, all + [s]) && JobsHold(names, all, p, q)
    ensures NoClash(names, all + [s]) <==> NoClash(names, all) && !Merges(names, all, s, p, q)
  {
    hide NoClash, InRun, InLastFile, Clash, Chain, Follows;
    NoClashSnoc(names, all, s);
    if all == [] {
      assert all + [s] == [s];
      NoRun(names, [s]);
    } else if Merges(names, all, s, p, q) {
      var i :| InRun(names, all, i);
      OtherFile(names, lengths, all, s, i, q);
      ClashSnoc(names, all, s, i);
    } else if NoClash(names, all) && exists i :: Clash(names, all + [s], i, |all|) {
      var i :| Clash(names, all + [s], i, |all|);
      ClashSnoc(names, all, s, i);
      var k :| InLastFile(all, k);
      EarlierClash(names, lengths, all, s, i, k);
      assert false;
    }
  }

  lemma NoRun(names: seq<string>, one: seq<Section>)
    requires |one| == 1
    ensures forall i :: !Clash(names, one, i, 0)
  {
  }

  lemma OtherFile(names: seq<string>, lengths: seq<nat>, all: seq<Section>, s: Section, i: nat, q: Pending)
    requires all != [] && Chain(lengths, all + [s]) && InRun(names, all, i)
    requires q.job.length > 0 <==> exists i :: InLastFile(all, i)
    requires s.file != all[|all| - 1].file || q.job.length == 0
    ensures all[i].file != s.file
  {
    var grown := all + [s];
    assert grown[i] == all[i] && grown[|all| - 1] == all[|all| - 1];
    FilesAscend(lengths, grown, i, |all| - 1);
    FilesAscend(lengths, grown, |all| - 1, |all|);
    if s.file == all[|all| - 1].file { assert !InLastFile(all, i); }
  }

  lemma EarlierClash(names: seq<string>, lengths: seq<nat>, all: seq<Section>, s: Section, i: nat, k: nat)
    requires Chain(lengths, all + [s]) && InRun(names, all, i) && InLastFile(all, k)
    requires s.file == all[|all| - 1].file != all[i].file
    ensures !NoClash(names, all)
  {
    var grown := all + [s];
    assert forall m :: 0 <= m < |all| ==> grown[m] == all[m];
    if k <= i {
      FilesAscend(lengths, grown, k, i);
      FilesAscend(lengths, grown, i, |all| - 1);
    }
    assert Clash(names, all, i, k);
  }

  lemma LastFileInRun(names: seq<string>, lengths: seq<nat>, all: seq<Section>, i: nat)
    requires Chain(lengths, all) && InLastFile(all, i)
    ensures InRun(names, all, i)
  {
    forall m | i <= m < |all| ensures all[m].file == all[|all| - 1].file {
      FilesAscend(lengths, all, i, m);
      FilesAscend(lengths, all, m, |all| - 1);
    }
  }

  /** Each merge costs one job. */
  lemma {:induction false} MergesCost(names: seq<string>, lengths: seq<nat>, all: seq<Section>, fromStart: bool)
    requires Chain(lengths, all)
    ensures |Flushed(Gathered(names, all, fromStart))| <= |Flushed(Wanted(names, all))|
    ensures |Flushed(Gathered(names, all, fromStart))| == |Flushed(Wanted(names, all))| <==> NoClash(names, all)
  {
    hide Chain, NoClash, Gathered, Wanted, InRun, InLastFile, Merges;
    if all == [] {
      NothingGathered(names, fromStart);
      NothingWanted(names);
      TooShort(names);
    } else {
      var front, s := all[..|all| - 1], all[|all| - 1];
      assert all == front + [s];
      ChainFront(lengths, all);
      MergesCost(names, lengths, front, fromStart);
      HoldAlways(names, lengths, front, fromStart);
      MergeClashes(names, lengths, front, s, Gathered(names, front, fromStart), Wanted(names, front));
      CostStep(names, lengths, front, s, fromStart);
    }
  }

  lemma ChainFront(lengths: seq<nat>, all: seq<Section>)
    requires Chain(lengths, all) && all != []
    ensures Chain(lengths, all[..|all| - 1])
  {
  }

  lemma TooShort(names: seq<string>)
    ensures NoClash(names, [])
  {
  }

  lemma CostStep(names: seq<string>, lengths: seq<nat>, all: seq<Section>, s: Section, fromStart: bool)
    requires Chain(lengths, all) && JobsHold(names, all, Gathered(names, all, fromStart), Wanted(names, all))
    ensures |Flushed(Wanted(names, all + [s]))| - |Flushed(Gathered(names, all + [s], fromStart))|
         == var (p, q) := (Gathered(names, all, fromStart), Wanted(names, all));
            |Flushed(q)| - |Flushed(p)| + if Merges(names, all, s, p, q) then 1 else 0
  {
    hide Chain, Gathered, Wanted, InRun, InLastFile;
    var (p, q) := (Gathered(names, all, fromStart), Wanted(names, all));
    GatheredSnoc(names, all, s, fromStart);
    WantedSnoc(names, all, s);
    if all == [] { NothingGathered(names, fromStart); NothingWanted(names); }
    if q.job.length > 0 {
      var i :| InLastFile(all, i);
      LastFileInRun(names, lengths, all, i);
    }
  }

  /** The loop stands where it should, or has yet to list the job that empty files of its
      name follow. */
  ghost predicate InStep(p: Pending, q: Pending) {
    && (p == q || (p.job.length > 0 && q.job.length == 0 && q.jobs == p.jobs + [p.job]))
    && (q.job.length == 0 ==> q.job.rangeBegin == 0)
  }

  /** Without a clash the loop gathers the wanted jobs. */
  lemma {:induction false} GathersWanted(names: seq<string>, lengths: seq<nat>, all: seq<Section>, fromStart: bool)
    requires Chain(lengths, all) && Compact(all) && Separated(names, all, fromStart) && all != []
    ensures InStep(Gathered(names, all, fromStart), Wanted(names, all))
  {
    var front, s := all[..|all| - 1], all[|all| - 1];
    assert all == front + [s];
    hide Chain, Compact, Separated, StartsRight, NoClash, Gathered, Wanted, InRun, InLastFile, Merges, InStep, JobsHold,
        Follows;
    if front == [] {
      assert all == [s];
      FirstInStep(names, s, fromStart);
    } else {
      FrontSeparated(names, lengths, front, s, fromStart);
      ChainLast(lengths, all);
      HoldAlways(names, lengths, front, fromStart);
      MergeClashes(names, lengths, front, s, Gathered(names, front, fromStart), Wanted(names, front));
      GathersWanted(names, lengths, front, fromStart);
      AgreeStep(names, lengths, front, s, fromStart);
    }
  }

  lemma FrontSeparated(names: seq<string>, lengths: seq<nat>, all: seq<Section>, s: Section, fromStart: bool)
    requires all != [] && Compact(all + [s]) && Separated(names, all + [s], fromStart)
    ensures Compact(all) && Separated(names, all, fromStart) && NoClash(names, all + [s])
    ensures s.length == 0 ==> s.offset == 0
  {
    NoClashSnoc(names, all, s);
    var grown := all + [s];
    assert grown[|all|] == s && forall k :: 0 <= k < |all| ==> grown[k] == all[k];
  }

  lemma FirstInStep(names: seq<string>, s: Section, fromStart: bool)
    requires Separated(names, [s], fromStart) && Compact([s])
    ensures InStep(Gathered(names, [s], fromStart), Wanted(names, [s]))
  {
    NothingGathered(names, fromStart);
    NothingWanted(names);
    GatheredSnoc(names, [], s, fromStart);
    WantedSnoc(names, [], s);
    assert [] + [s] == [s];
  }

  lemma AgreeStep(names: seq<string>, lengths: seq<nat>, all: seq<Section>, s: Section, fromStart: bool)
    requires all != [] && Follows(lengths, all[|all| - 1], s) && (s.length == 0 ==> s.offset == 0)
    requires var (p, q) := (Gathered(names, all, fromStart), Wanted(names, all));
             JobsHold(names, all, p, q) && !Merges(names, all, s, p, q) && InStep(p, q)
    ensures InStep(Gathered(names, all + [s], fromStart), Wanted(names, all + [s]))
  {
    hide Gathered, Wanted, InRun, InLastFile;
    GatheredSnoc(names, all, s, fromStart);
    WantedSnoc(names, all, s);
  }

  /** The first job begins where its section does, or when misread at 0. */
  lemma {:induction false} GatheredFirst(names: seq<string>, all: seq<Section>, fromStart: bool)
    requires all != [] && all[0].length > 0
    ensures var p := Gathered(names, all, fromStart);
            && Flushed(p) != [] && (p.jobs == [] ==> p.job.length > 0)
            && Flushed(p)[0].rangeBegin == if fromStart || Name(names, all[0]) != "" then all[0].offset else 0
  {
    var front := all[..|all| - 1];
    if front != [] { GatheredFirst(names, front, fromStart); }
  }

  lemma {:induction false} WantedFirst(names: seq<string>, all: seq<Section>)
    requires all != [] && all[0].length > 0
    ensures var p := Wanted(names, all);
            && Flushed(p) != [] && (p.jobs == [] ==> p.job.length > 0) && Flushed(p)[0].rangeBegin == all[0].offset
  {
    var front := all[..|all| - 1];
    if front != [] { WantedFirst(names, front); }
  }

  /** In any layout, files without content included, the loop lists the wanted jobs if and
      only if no two files with content are merged and the first section starts right. */
  lemma WantedExactly(names: seq<string>, lengths: seq<nat>, all: seq<Section>, fromStart: bool)
    requires Chain(lengths, all) && Compact(all)
    ensures Flushed(Gathered(names, all, fromStart)) == Flushed(Wanted(names, all)) <==>
              Separated(names, all, fromStart)
  {
    hide Chain, NoClash, Gathered, Wanted;
    if all == [] {
      NothingGathered(names, fromStart);
      NothingWanted(names);
      TooShort(names);
    } else {
      MergesCost(names, lengths, all, fromStart);
      if Separated(names, all, fromStart) {
        GathersWanted(names, lengths, all, fromStart);
      } else if !StartsRight(names, all, fromStart) {
        GatheredFirst(names, all, fromStart);
        WantedFirst(names, all);
      }
    }
  }

  /** Files called differently from their neighbours never clash in a chain of sections. */
  lemma NeighboursDiffer(names: seq<string>, lengths: seq<nat>, all: seq<Section>)
    requires Chain(lengths, all) && forall k :: 0 <= k < |all| ==> all[k].file < |names|
    requires forall f {:trigger names[f]} :: 0 < f < |names| ==> names[f - 1] != names[f]
    ensures NoClash(names, all)
  {
    forall i, j | 0 <= i < j < |all| ensures !Clash(names, all, i, j) {
      if Clash(names, all, i, j) {
        var f := EqualNeighbours(names, lengths, all, i, j);
        assert false;
      }
    }
  }

  lemma EqualNeighbours(names: seq<string>, lengths: seq<nat>, all: seq<Section>, i: nat, j: nat) returns (f: nat)
    requires Chain(lengths, all) && (forall k :: 0 <= k < |all| ==> all[k].file < |names|) && Clash(names, all, i, j)
    ensures 0 < f < |names| && names[f - 1] == names[f]
  {
    var m := i;
    while all[m + 1].file == all[i].file
      invariant i <= m < j && all[m].file == all[i].file
      decreases j - m
    {
      m := m + 1;
    }
    f := all[m + 1].file;
    assert Follows(lengths, all[m], all[m + 1]);
    assert Name(names, all[m]) == Name(names, all[m + 1]);
  }

  // ---- what the gathered jobs fetch

  /** No request is empty or leaves its file, and one after the other they fetch exactly
      the bytes of the sections. */
  lemma JobsFetchSections(serve: string -> bytes, files: seq<bytes>, names: seq<string>, all: seq<Section>,
                          fromStart: bool)
    requires Serves(serve, names, files) && Separated(names, all, fromStart)
    requires Chain(Lengths(files), all) && Compact(all) && forall k :: 0 <= k < |all| ==> Inside(Lengths(files), all[k])
    ensures var jobs := Flushed(Gathered(names, all, fromStart));
            && (forall k :: 0 <= k < |jobs| ==> InFile(serve, jobs[k]))
            && Fetched(serve, jobs) == Bytes(files, all)
  {
    if all != [] {
      hide Gathered, Wanted, Serves, Inside, Separated, Chain, Compact, Good, Flushed, Bytes, Fetched;
      WantedExactly(names, Lengths(files), all, fromStart);
      WantedGood(serve, files, names, all);
      GoodFlushed(serve, files, names, all, Wanted(names, all));
    } else {
      NothingGathered(names, fromStart);
    }
  }

  /** Neighbours with one name are fetched as one file: with two files of one byte, a
      single request asks for two bytes of the first. */
  lemma EqualNamesMerge(name: string)
    ensures Flushed(Gathered([name, name], [Section(0, 0, 1), Section(1, 0, 1)], true)) == [Job(name, 0, 2)]
  {
    var names, a, b := [name, name], Section(0, 0, 1), Section(1, 0, 1);
    assert [a, b][..1] == [a] && [a][..0] == [];
    assert Gathered(names, [a], true) == Pending([], Job(name, 0, 1));
  }
}
