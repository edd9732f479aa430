/** The incremental code index: budgeted, hash-gated passes over a tree (internal/codeintel/index.go, indexer.go). */
module CodeIndex {
  import opened Outcomes
  import opened IndexTables

  const MAX_INDEX_BYTES_PER_PASS: nat := 33554432
  const MAX_CONTENT_INDEX_BYTES: nat := 16777216

  datatype Stats = Stats(scanned: nat, indexed: nat, same: nat, removed: nat, deferred: nat, contentIndexed: bool)

  datatype IndexError = Unreadable(path: string) | Unparsable(path: string)

  datatype Step = Unchanged | Deferred | Indexed | Failed(error: IndexError)

  /** What a pass has counted so far, and how much source it has parsed. */
  datatype Tally = Tally(indexed: nat, same: nat, deferred: nat, parsed: nat)

  /** The store as a value: its tables, and where their rows came from. */
  datatype View = View(t: Tables, o: map<string, Origin>)

  ghost predicate Whole(v: View) {
    v.o.Keys == v.t.files.Keys
  }

  // ---- what a pass decides for a file ----

  predicate SameStat(files: map<string, FileRow>, f: Scanned) {
    f.path in files && files[f.path].mtime == f.mtime && files[f.path].size == f.size
  }

  /** A pass leaves this file's rows as they are. */
  predicate Passes(reg: Registry, files: map<string, FileRow>, f: Scanned) {
    SameStat(files, f) || (f.path in files && files[f.path].hash == reg.hash(f.content))
  }

  ghost predicate Tree(found: seq<Scanned>) {
    forall i, j | 0 <= i < j < |found| :: found[i].path != found[j].path
  }

  function PathsOf(found: seq<Scanned>): set<string> {
    set i | 0 <= i < |found| :: found[i].path
  }

  /** The files of the tree a pass would have to read into the store. */
  function Outdated(reg: Registry, files: map<string, FileRow>, found: seq<Scanned>): set<string> {
    set i | 0 <= i < |found| && !Passes(reg, files, found[i]) :: found[i].path
  }

  /** The rows of f are what a pass over f writes. */
  ghost predicate Written(reg: Registry, v: View, f: Scanned, content: bool)
  {
    && Whole(v) && f.path in v.t.files
    && v.t.files[f.path] == FileRow(v.t.files[f.path].id, reg.hash(f.content), f.mtime, f.size)
    && v.o[f.path].content == f.content && v.o[f.path].whole == content
  }

  /** Every file but those in done has the rows it had; those in done were written anew, under the id they had. */
  ghost predicate Rewritten(reg: Registry, a: View, b: View, found: seq<Scanned>, content: bool, done: set<string>) {
    && Whole(a) && Whole(b)
    && b.t.files.Keys == a.t.files.Keys + done
    && (forall p | p in a.t.files && p !in done :: b.t.files[p] == a.t.files[p] && b.o[p] == a.o[p])
    && (forall i | 0 <= i < |found| && found[i].path in done :: Written(reg, b, found[i], content))
    && (forall p | p in done && p in a.t.files :: b.t.files[p].id == a.t.files[p].id)
  }

  // ---- one pass ----

  function Faded(o: Origin, content: bool): Origin {
    if content then o else o.(whole := false)
  }

  /** What the loop over the scanned files has done by the i-th of them. */
  ghost predicate Progress(reg: Registry, a: View, b: View, found: seq<Scanned>, i: nat, content: bool,
                           done: set<string>, put: set<string>, bytes: nat)
  {
    && i <= |found| && Rewritten(reg, a, b, found, content, done)
    && done !! put && done + put == Outdated(reg, a.t.files, found[..i])
    && (bytes > 0 ==> done != {}) && (put != {} ==> bytes >= MAX_INDEX_BYTES_PER_PASS)
  }

  ghost predicate Counts(tally: Tally, i: nat, done: set<string>, put: set<string>) {
    tally.indexed == |done| && tally.deferred == |put| && tally.indexed + tally.same + tally.deferred == i
  }

  ghost predicate Underway(reg: Registry, a: View, b: View, found: seq<Scanned>, i: nat, content: bool,
                           done: set<string>, put: set<string>, tally: Tally)
  {
    Progress(reg, a, b, found, i, content, done, put, tally.parsed) && Counts(tally, i, done, put)
  }

  function Counted(tally: Tally, step: Step, f: Scanned): Tally {
    match step
    case Unchanged => tally.(same := tally.same + 1)
    case Deferred => tally.(deferred := tally.deferred + 1)
    case Indexed => tally.(indexed := tally.indexed + 1, parsed := tally.parsed + |f.content|)
    case Failed(_) => tally
  }

  function With(paths: set<string>, so: bool, f: Scanned): set<string> {
    if so then paths + {f.path} else paths
  }

  lemma CountsNext(tally: Tally, i: nat, done: set<string>, put: set<string>, step: Step, f: Scanned)
    requires Counts(tally, i, done, put) && !step.Failed? && f.path !in done + put
    ensures Counts(Counted(tally, step, f), i + 1, With(done, step.Indexed?, f), With(put, step.Deferred?, f))
  {
  }

  /** A whole pass from a to c: the files in done are read in, the rest of the tree keeps its rows (less whole
      texts, where those are not indexed), and nothing off the tree is left. */
  ghost predicate Advanced(reg: Registry, a: View, c: View, found: seq<Scanned>, content: bool, done: set<string>) {
    && Whole(a) && Whole(c)
    && c.t.files.Keys == a.t.files.Keys * PathsOf(found) + done
    && (forall p | p in a.t.files && p in c.t.files && p !in done ::
          c.t.files[p] == a.t.files[p] && c.o[p] == Faded(a.o[p], content))
    && (forall i | 0 <= i < |found| && found[i].path in done :: Written(reg, c, found[i], content))
    && (forall p | p in done && p in a.t.files :: c.t.files[p].id == a.t.files[p].id)
  }

  /** The pass and what it reports: what it did not get to is what it deferred, and it defers only after reading
      some. */
  ghost predicate Pass(reg: Registry, a: View, c: View, found: seq<Scanned>, stats: Stats) {
    var stale, left := Outdated(reg, a.t.files, found), Outdated(reg, c.t.files, found);
    && left <= stale && Advanced(reg, a, c, found, stats.contentIndexed, stale - left)
    && stats.scanned == |found| && stats.indexed == |stale| - |left| && stats.deferred == |left|
    && stats.same == |found| - |stale| && stats.removed == |a.t.files.Keys - PathsOf(found)|
    && (left != {} ==> left != stale)
  }

  /** After any number of passes over one tree: a file the first pass would have left alone still has the rows it
      had, and any other file a pass now leaves alone has the rows its content calls for. */
  ghost predicate Kept(reg: Registry, a: View, c: View, found: seq<Scanned>, content: bool) {
    && Whole(a) && Whole(c) && c.t.files.Keys <= PathsOf(found)
    && forall i | 0 <= i < |found| :: FileKept(reg, a, c, found[i], content)
  }

  ghost predicate FileKept(reg: Registry, a: View, c: View, f: Scanned, content: bool)
    requires Whole(a) && Whole(c)
  {
    if Passes(reg, a.t.files, f) then
      f.path in c.t.files && c.t.files[f.path] == a.t.files[f.path] && c.o[f.path] == Faded(a.o[f.path], content)
    else
      Passes(reg, c.t.files, f) ==> Written(reg, c, f, content)
  }

  /** No pass since, or some. */
  ghost predicate KeptSince(reg: Registry, a: View, c: View, found: seq<Scanned>) {
    c == a || Kept(reg, a, c, found, WithContent(found))
  }

  ghost predicate Without(a: View, b: View, gone: set<string>) {
    b.t.files == a.t.files - gone && b.o == a.o - gone
  }

  function Claimed(found: seq<Scanned>): nat {
    if found == [] then 0 else Claimed(found[..|found| - 1]) + found[|found| - 1].size
  }

  function WithContent(found: seq<Scanned>): bool {
    Claimed(found) <= MAX_CONTENT_INDEX_BYTES
  }

  class Store {
    const reg: Registry
    var files: map<string, FileRow>
    var symbols: map<nat, SymbolRow>
    var fts: multiset<FtsRow>
    ghost var origin: map<string, Origin>

    ghost function Now(): View
      reads this
    {
      View(Tables(files, symbols, fts), origin)
    }

    ghost predicate Valid()
      reads this
    {
      Sound(reg, Now().t, Now().o)
    }

    constructor (reg: Registry)
      ensures Valid() && this.reg == reg && Now() == View(Tables(map[], map[], multiset{}), map[])
    {
      this.reg := reg;
      files, symbols, fts, origin := map[], map[], multiset{}, map[];
      new;
      EmptySound(reg);
    }

    /** The id a new row gets: one past the largest in use. */
    static method NextId(used: set<nat>) returns (id: nat)
      ensures id !in used
    {
      var rest := used;
      id := 1;
      while rest != {}
        invariant rest <= used && forall y | y in used :: y in rest || y < id
        decreases rest
      {
        var x :| x in rest;
        rest := rest - {x};
        if x >= id { id := x + 1; }
      }
    }

    /** DELETE FROM fts over the given rows. */
    method DeleteFts(gone: set<FtsRow>)
      modifies `fts
      ensures forall e: FtsRow :: fts[e] == if e in gone then 0 else old(fts[e])
    {
      var rest := gone;
      while rest != {}
        invariant rest <= gone
        invariant forall e: FtsRow :: fts[e] == if e in gone - rest then 0 else old(fts[e])
        decreases rest
      {
        var e :| e in rest;
        fts := fts[e := 0];
        rest := rest - {e};
      }
    }

    method DeleteFileIndexRows(id: nat)
      modifies `fts, `symbols
      ensures Cleared(old(Now().t), id, symbols, fts)
    {
      var ids := set s | s in symbols && symbols[s].file == id;
      DeleteFts(set e | e in fts && e.kind.OfSymbol? && e.ref in ids);
      DeleteFts(set e | e in fts && !e.kind.OfSymbol? && e.ref == id);
      symbols := map s | s in symbols && symbols[s].file != id :: symbols[s];
    }

    method InsertFileIndexRows(id: nat, path: string, content: string, found: seq<Symbol>, withContent: bool)
      returns (ghost ids: seq<nat>)
      requires forall e: FtsRow | e.kind.OfSymbol? && e.ref !in symbols :: fts[e] == 0
      modifies `fts, `symbols
      ensures Entered(old(Now().t), path, id, found, Origin(content, ids, withContent), symbols, fts)
    {
      ids := [];
      for k := 0 to |found|
        invariant |ids| == k && Filling(old(Now().t), id, found, ids, symbols, fts)
      {
        var s := NextId(symbols.Keys);
        FillingNext(old(Now().t), id, found, ids, symbols, fts, s);
        symbols := symbols[s := SymbolRow(id, found[k])];
        fts := fts + multiset{FtsRow(OfSymbol, s, SearchText(found[k]))};
        ids := ids + [s];
      }
      ghost var mid := fts;
      fts := fts + multiset{FtsRow(OfPath, id, path)};
      if withContent {
        fts := fts + multiset{FtsRow(OfFile, id, content)};
      }
      assert fts == mid + multiset{FtsRow(OfPath, id, path)}
                    + if withContent then multiset{FtsRow(OfFile, id, content)} else multiset{};
    }

    /** A file taken out with everything its rows held. */
    method RemoveFile(path: string)
      requires Valid() && path in files
      modifies this
      ensures Valid() && files == old(files) - {path} && origin == old(origin) - {path}
    {
      DeleteFileIndexRows(files[path].id);
      files := files - {path};
      origin := origin - {path};
      ClearedSound(reg, old(Now().t), old(Now().o), path, Now().t);
    }

    /** The rows of one file put in, over a file row that may be there and search and symbol rows that are not. */
    method FillFile(f: Scanned, row: FileRow, found: seq<Symbol>, whole: bool) returns (ghost filled: Origin)
      requires Sound(reg, Tables(files - {f.path}, symbols, fts), origin - {f.path})
      requires forall q | q in files && q != f.path :: files[q].id != row.id
      requires row.hash == reg.hash(f.content) && reg.extract(f.path, f.content) == Some(found)
      modifies this
      ensures Valid() && files == old(files)[f.path := row]
      ensures origin == old(origin)[f.path := filled] && filled.content == f.content && filled.whole == whole
    {
      ghost var t, o := Tables(files - {f.path}, symbols, fts), origin - {f.path};
      SymbolRowsOnly(reg, t, o);
      files := files[f.path := row];
      ghost var ids := InsertFileIndexRows(row.id, f.path, f.content, found, whole);
      filled := Origin(f.content, ids, whole);
      FillDone(reg, t, o, old(files), old(origin), f.path, row, found, filled, symbols, fts);
      origin := origin[f.path := filled];
    }

    /** A file's rows written from its content, under the id it had or a new one. */
    method WriteFile(f: Scanned, found: seq<Symbol>, content: bool)
      requires Valid() && reg.extract(f.path, f.content) == Some(found)
      modifies this
      ensures Valid() && Rewritten(reg, old(Now()), Now(), [f], content, {f.path})
    {
      var id;
      if f.path in files {
        id := files[f.path].id;
        DeleteFileIndexRows(id);
        ClearedSound(reg, old(Now().t), origin, f.path, Tables(files - {f.path}, symbols, fts));
      } else {
        id := NextId(set p | p in files :: files[p].id);
        assert files - {f.path} == files && origin - {f.path} == origin;
        IdsIn(files);
      }
      var row := FileRow(id, reg.hash(f.content), f.mtime, f.size);
      ghost var filled := FillFile(f, row, found, content);
      RewrittenOne(reg, old(Now()), Now(), f, row, filled);
    }

    /** One file of a pass: gated by its stat, then by its hash, then by what the pass has spent. */
    method IndexOneFile(f: Scanned, existing: map<string, FileRow>, indexed: nat, content: bool) returns (step: Step)
      requires Valid() && (f.path in existing <==> f.path in files)
               && (f.path in files ==> existing[f.path] == files[f.path])
      modifies this
      ensures Valid()
      ensures step.Indexed? ==> Rewritten(reg, old(Now()), Now(), [f], content, {f.path})
      ensures !step.Indexed? ==> Now() == old(Now())
      ensures SameStat(existing, f) ==> step == Unchanged
      ensures step.Unchanged? ==> Passes(reg, existing, f)
      ensures step.Deferred? || step.Indexed? ==> !Passes(reg, existing, f)
      ensures !SameStat(existing, f) && !f.readable <==> step == Failed(Unreadable(f.path))
      ensures step.Deferred? ==> indexed >= MAX_INDEX_BYTES_PER_PASS
      ensures step.Indexed? ==> indexed < MAX_INDEX_BYTES_PER_PASS
      ensures step.Failed? && f.readable ==>
        step.error == Unparsable(f.path) && reg.extract(f.path, f.content).None? && indexed < MAX_INDEX_BYTES_PER_PASS
    {
      var existed := f.path in existing;
      if existed && existing[f.path].mtime == f.mtime && existing[f.path].size == f.size {
        return Unchanged;
      }
      if !f.readable {
        return Failed(Unreadable(f.path));
      }
      var hash := reg.hash(f.content);
      if existed && existing[f.path].hash == hash {
        return Unchanged;
      }
      if indexed >= MAX_INDEX_BYTES_PER_PASS {
        return Deferred;
      }
      var found := reg.extract(f.path, f.content);
      if found.None? {
        return Failed(Unparsable(f.path));
      }
      WriteFile(f, found.value, content);
      step := Indexed;
    }

    method DropContentRows(content: bool)
      requires Valid()
      modifies this
      ensures Valid() && files == old(files)
      ensures origin.Keys == old(origin).Keys && forall p | p in origin :: origin[p] == Faded(old(origin)[p], content)
    {
      if content {
        return;
      }
      DeleteFts(set e | e in fts && e.kind.OfFile?);
      DroppedSound(reg, old(Now().t), origin, fts);
      origin := WithoutWhole(origin);
    }

    /** The i-th file of the pass that began at a. */
    method Visit(ghost a: View, existing: map<string, FileRow>, found: seq<Scanned>, i: nat, content: bool,
                 tally: Tally, ghost done: set<string>, ghost put: set<string>)
      returns (step: Step)
      requires Valid() && Tree(found) && i < |found| && existing == a.t.files
      requires Underway(reg, a, Now(), found, i, content, done, put, tally)
      modifies this
      ensures Valid()
      ensures !step.Failed? ==>
        Underway(reg, a, Now(), found, i + 1, content, With(done, step.Indexed?, found[i]),
                 With(put, step.Deferred?, found[i]), Counted(tally, step, found[i]))
    {
      RowAsBefore(reg, a, Now(), found, i, content, done, put, tally.parsed);
      step := IndexOneFile(found[i], existing, tally.parsed, content);
      ProgressNext(reg, a, old(Now()), Now(), found, i, content, done, put, tally.parsed, step);
      if !step.Failed? {
        CountsNext(tally, i, done, put, step, found[i]);
      }
    }

    method IndexScannedFiles(existing: map<string, FileRow>, found: seq<Scanned>, content: bool)
      returns (err: Option<IndexError>, tally: Tally, ghost done: set<string>, ghost put: set<string>)
      requires Valid() && Tree(found) && existing == files
      modifies this
      ensures Valid()
      ensures err.None? ==> Underway(reg, old(Now()), Now(), found, |found|, content, done, put, tally)
    {
      UnderwayBegins(reg, Now(), found, content);
      err, tally, done, put := None, Tally(0, 0, 0, 0), {}, {};
      for i := 0 to |found|
        invariant Valid() && Underway(reg, old(Now()), Now(), found, i, content, done, put, tally)
      {
        var step := Visit(old(Now()), existing, found, i, content, tally, done, put);
        if step.Failed? {
          err := Some(step.error);
          return;
        }
        done, put := With(done, step.Indexed?, found[i]), With(put, step.Deferred?, found[i]);
        tally := Counted(tally, step, found[i]);
      }
    }

    /** One more of the stale paths taken out; rest are those still there. */
    method RemoveNext(ghost a: View, ghost stale: set<string>, rest: set<string>) returns (rest': set<string>)
      requires Valid() && rest != {} && rest <= stale <= a.t.files.Keys && Without(a, Now(), stale - rest)
      modifies this
      ensures Valid() && Without(a, Now(), stale - rest')
      ensures rest' < rest && |rest'| == |rest| - 1
    {
      var path :| path in rest;
      rest' := rest - {path};
      RemoveFile(path);
      OneGone(a.t.files, stale, rest, path);
      OneGone(a.o, stale, rest, path);
    }

    /** removeStaleFiles: the rows whose paths the scan did not see. */
    method RemoveStaleFiles(stale: set<string>) returns (removed: nat)
      requires Valid() && stale <= files.Keys
      modifies this
      ensures Valid() && Without(old(Now()), Now(), stale)
      ensures removed == |stale|
    {
      var rest := stale;
      removed := 0;
      NoneGone(old(Now()), stale);
      while rest != {}
        invariant Valid() && rest <= stale && Without(old(Now()), Now(), stale - rest) && removed == |stale| - |rest|
        decreases rest
      {
        rest := RemoveNext(old(Now()), stale, rest);
        removed := removed + 1;
      }
      assert stale - rest == stale;
    }

    /** One pass over the tree, all of it or none: an error puts the tables back. */
    method Index(found: seq<Scanned>) returns (r: Result<Stats, IndexError>)
      requires Valid() && Tree(found)
      modifies this
      ensures Valid()
      ensures r.Err? ==> Now() == old(Now())
      ensures r.Ok? ==> Pass(reg, old(Now()), Now(), found, r.value) && r.value.contentIndexed == WithContent(found)
    {
      var content := WithContent(found);
      var begun := Tables(files, symbols, fts);
      ghost var a := Now();
      var existing := files;
      DropContentRows(content);
      ghost var b := Now();
      var err, tally;
      ghost var done, put;
      err, tally, done, put := IndexScannedFiles(existing, found, content);
      if err.Some? {
        files, symbols, fts, origin := begun.files, begun.symbols, begun.fts, a.o;
        return Err(err.value);
      }
      ghost var c := Now();
      StaleKept(reg, b, c, found, content, done, put, tally);
      var removed := RemoveStaleFiles(existing.Keys - PathsOf(found));
      var stats := Stats(|found|, tally.indexed, tally.same, removed, tally.deferred, content);
      PassDone(reg, a, b, c, Now(), found, done, put, tally, stats);
      r := Ok(stats);
    }

    /** One more pass over the tree, after none or some since a. */
    method PassAgain(ghost a: View, found: seq<Scanned>) returns (r: Result<Stats, IndexError>)
      requires Valid() && Tree(found) && KeptSince(reg, a, Now(), found)
      modifies this
      ensures Valid() && KeptSince(reg, a, Now(), found)
      ensures r.Ok? ==>
        Kept(reg, a, Now(), found, WithContent(found)) && r.value.deferred == |Outdated(reg, files, found)|
      ensures r.Ok? ==> r.value.indexed == |Outdated(reg, old(files), found)| - |Outdated(reg, files, found)|
      ensures r.Ok? && r.value.deferred > 0 ==> r.value.indexed > 0
    {
      ghost var before := Now();
      r := Index(found);
      if r.Ok? {
        PassKept(reg, before, Now(), found, r.value);
        KeptOn(reg, a, before, Now(), found, WithContent(found));
        PassAdvances(reg, before, Now(), found, r.value);
      }
    }

    /** drainPasses: passes until one defers nothing, or reads nothing in, or fails. */
    method DrainPasses(found: seq<Scanned>) returns (failed: bool)
      requires Valid() && Tree(found)
      modifies this
      ensures Valid() && KeptSince(reg, old(Now()), Now(), found)
      ensures !failed ==> Kept(reg, old(Now()), Now(), found, WithContent(found)) && Outdated(reg, files, found) == {}
    {
      while true
        invariant Valid() && KeptSince(reg, old(Now()), Now(), found)
        decreases |Outdated(reg, files, found)|
      {
        var r := PassAgain(old(Now()), found);
        if r.Err? {
          return true;
        }
        if r.value.deferred == 0 || r.value.indexed == 0 {
          return false;
        }
      }
    }
  }

  lemma OneGone<V>(m: map<string, V>, stale: set<string>, rest: set<string>, p: string)
    requires p in rest && rest <= stale
    ensures m - (stale - rest) - {p} == m - (stale - (rest - {p}))
  {
  }

  lemma NoneGone(v: View, stale: set<string>)
    ensures Without(v, v, stale - stale)
  {
    assert stale - stale == {};
    assert v.t.files - {} == v.t.files && v.o - {} == v.o;
  }

  lemma OutdatedNext(reg: Registry, files: map<string, FileRow>, found: seq<Scanned>, i: nat)
    requires i < |found|
    ensures Outdated(reg, files, found[..i + 1])
         == Outdated(reg, files, found[..i]) + if Passes(reg, files, found[i]) then {} else {found[i].path}
  {
    var s, f := found[..i + 1], found[i];
    forall p
      ensures p in Outdated(reg, files, s)
         <==> p in Outdated(reg, files, found[..i]) || (!Passes(reg, files, f) && p == f.path)
    {
      if p in Outdated(reg, files, found[..i]) {
        var j :| 0 <= j < i && !Passes(reg, files, found[..i][j]) && found[..i][j].path == p;
        assert s[j] == found[..i][j];
      }
      if p in Outdated(reg, files, s) {
        var j :| 0 <= j <= i && !Passes(reg, files, s[j]) && s[j].path == p;
        if j < i { assert found[..i][j] == s[j]; }
      }
      if !Passes(reg, files, f) { assert s[i] == f; }
    }
  }

  lemma NotYet(reg: Registry, files: map<string, FileRow>, found: seq<Scanned>, i: nat)
    requires Tree(found) && i < |found|
    ensures found[i].path !in Outdated(reg, files, found[..i])
  {
  }

  lemma RowAsBefore(reg: Registry, a: View, b: View, found: seq<Scanned>, i: nat, content: bool, done: set<string>,
                    put: set<string>, bytes: nat)
    requires Tree(found) && i < |found|
    requires Progress(reg, a, b, found, i, content, done, put, bytes)
    ensures var p := found[i].path; p !in done && p !in put && (p in a.t.files <==> p in b.t.files)
    ensures var p := found[i].path; p in b.t.files ==> a.t.files[p] == b.t.files[p]
  {
    NotYet(reg, a.t.files, found, i);
  }

  lemma RewrittenNext(reg: Registry, a: View, b: View, c: View, found: seq<Scanned>, i: nat, content: bool,
                      done: set<string>)
    requires Tree(found) && i < |found| && found[i].path !in done
    requires Rewritten(reg, a, b, found, content, done) && Rewritten(reg, b, c, [found[i]], content, {found[i].path})
    ensures Rewritten(reg, a, c, found, content, done + {found[i].path})
  {
    var p := found[i].path;
    forall j | 0 <= j < |found| && found[j].path in done + {p} ensures Written(reg, c, found[j], content) {
      if j != i {
        assert Written(reg, b, found[j], content);
      } else {
        assert [found[i]][0].path == p;
      }
    }
  }

  lemma UnderwayBegins(reg: Registry, a: View, found: seq<Scanned>, content: bool)
    requires Whole(a)
    ensures Underway(reg, a, a, found, 0, content, {}, {}, Tally(0, 0, 0, 0))
  {
  }

  lemma ProgressNext(reg: Registry, a: View, b: View, c: View, found: seq<Scanned>, i: nat, content: bool,
                     done: set<string>, put: set<string>, bytes: nat, step: Step)
    requires Tree(found) && i < |found|
    requires Progress(reg, a, b, found, i, content, done, put, bytes) && found[i].path !in done + put
    requires step.Indexed? ==> Rewritten(reg, b, c, [found[i]], content, {found[i].path})
    requires !step.Indexed? ==> c == b
    requires step.Unchanged? ==> Passes(reg, a.t.files, found[i])
    requires step.Deferred? || step.Indexed? ==> !Passes(reg, a.t.files, found[i])
    requires step.Deferred? ==> bytes >= MAX_INDEX_BYTES_PER_PASS
    ensures !step.Failed? ==>
      Progress(reg, a, c, found, i + 1, content, With(done, step.Indexed?, found[i]),
               With(put, step.Deferred?, found[i]), if step.Indexed? then bytes + |found[i].content| else bytes)
  {
    if step.Indexed? {
      ProgressDone(reg, a, b, c, found, i, content, done, put, bytes);
    } else if !step.Failed? {
      ProgressKept(reg, a, b, found, i, content, done, put, bytes, step.Deferred?);
    }
  }

  lemma ProgressDone(reg: Registry, a: View, b: View, c: View, found: seq<Scanned>, i: nat, content: bool,
                     done: set<string>, put: set<string>, bytes: nat)
    requires Tree(found) && i < |found| && found[i].path !in done + put && !Passes(reg, a.t.files, found[i])
    requires Progress(reg, a, b, found, i, content, done, put, bytes)
    requires Rewritten(reg, b, c, [found[i]], content, {found[i].path})
    ensures Progress(reg, a, c, found, i + 1, content, done + {found[i].path}, put, bytes + |found[i].content|)
  {
    OutdatedNext(reg, a.t.files, found, i);
    RewrittenNext(reg, a, b, c, found, i, content, done);
    DoneGrows(done, put, found[i].path);
  }

  lemma DoneGrows(done: set<string>, put: set<string>, p: string)
    requires done !! put && p !in done + put
    ensures (done + {p}) !! put && (done + {p}) + put == (done + put) + {p} && done + {p} != {}
  {
  }

  lemma ProgressKept(reg: Registry, a: View, b: View, found: seq<Scanned>, i: nat, content: bool, done: set<string>,
                     put: set<string>, bytes: nat, deferred: bool)
    requires Tree(found) && i < |found| && found[i].path !in done + put && Passes(reg, a.t.files, found[i]) == !deferred
    requires Progress(reg, a, b, found, i, content, done, put, bytes)
             && (deferred ==> bytes >= MAX_INDEX_BYTES_PER_PASS)
    ensures Progress(reg, a, b, found, i + 1, content, done, With(put, deferred, found[i]), bytes)
  {
    OutdatedNext(reg, a.t.files, found, i);
    assert done + (put + {found[i].path}) == (done + put) + {found[i].path};
  }

  lemma PathIn(found: seq<Scanned>, i: nat)
    requires i < |found|
    ensures found[i].path in PathsOf(found)
  {
  }

  lemma OutdatedIn(reg: Registry, files: map<string, FileRow>, found: seq<Scanned>)
    ensures Outdated(reg, files, found) <= PathsOf(found)
  {
  }

  lemma StaleKept(reg: Registry, b: View, c: View, found: seq<Scanned>, content: bool, done: set<string>,
                  put: set<string>, tally: Tally)
    requires Underway(reg, b, c, found, |found|, content, done, put, tally)
    ensures b.t.files.Keys - PathsOf(found) <= c.t.files.Keys
    ensures done + put == Outdated(reg, b.t.files, found) <= PathsOf(found)
  {
    assert found[..|found|] == found;
    OutdatedIn(reg, b.t.files, found);
  }

  /** A file is in the set of outdated ones just when a pass would not leave it alone. */
  lemma OutdatedAt(reg: Registry, files: map<string, FileRow>, found: seq<Scanned>, i: nat)
    requires Tree(found) && i < |found|
    ensures found[i].path in Outdated(reg, files, found) <==> !Passes(reg, files, found[i])
  {
  }

  /** Once the pass is over, what is outdated is what it put off. */
  lemma PutOff(reg: Registry, a: View, d: View, found: seq<Scanned>, content: bool, done: set<string>, put: set<string>)
    requires Tree(found) && Advanced(reg, a, d, found, content, done)
    requires done !! put && done + put == Outdated(reg, a.t.files, found)
    ensures Outdated(reg, d.t.files, found) == put
  {
    forall i | 0 <= i < |found| ensures found[i].path in put <==> !Passes(reg, d.t.files, found[i]) {
      OutdatedAt(reg, a.t.files, found, i);
      PathIn(found, i);
      if found[i].path in done {
        assert Written(reg, d, found[i], content);
      }
    }
    OutdatedIn(reg, a.t.files, found);
    forall p | p in put ensures p in Outdated(reg, d.t.files, found) {
      var i :| 0 <= i < |found| && found[i].path == p;
      OutdatedAt(reg, d.t.files, found, i);
    }
  }

  lemma PassAdvanced(reg: Registry, a: View, b: View, c: View, d: View, found: seq<Scanned>, content: bool,
                     done: set<string>)
    requires Whole(a) && b.t.files == a.t.files && Whole(b) && forall p | p in b.o :: b.o[p] == Faded(a.o[p], content)
    requires Rewritten(reg, b, c, found, content, done) && done <= PathsOf(found)
    requires Without(c, d, a.t.files.Keys - PathsOf(found))
    ensures Advanced(reg, a, d, found, content, done)
  {
    forall i | 0 <= i < |found| && found[i].path in done ensures Written(reg, d, found[i], content) {
      assert Written(reg, c, found[i], content);
      PathIn(found, i);
    }
    AdvancedKeys(a, c, d, PathsOf(found), done);
  }

  lemma AdvancedKeys(a: View, c: View, d: View, paths: set<string>, done: set<string>)
    requires Whole(a) && Whole(c) && c.t.files.Keys == a.t.files.Keys + done && done <= paths
    requires Without(c, d, a.t.files.Keys - paths)
    ensures Whole(d) && d.t.files.Keys == a.t.files.Keys * paths + done
  {
  }

  lemma Difference(all: set<string>, done: set<string>, put: set<string>)
    requires done !! put && done + put == all
    ensures all - put == done && |all| == |done| + |put| && put <= all && (put == all <==> done == {})
  {
    assert all - put == done;
  }

  lemma PassDone(reg: Registry, a: View, b: View, c: View, d: View, found: seq<Scanned>, done: set<string>,
                 put: set<string>, tally: Tally, stats: Stats)
    requires Tree(found)
    requires Whole(a) && b.t.files == a.t.files && Whole(b)
    requires forall p | p in b.o :: b.o[p] == Faded(a.o[p], stats.contentIndexed)
    requires Underway(reg, b, c, found, |found|, stats.contentIndexed, done, put, tally)
    requires Without(c, d, a.t.files.Keys - PathsOf(found))
    requires stats == Stats(|found|, tally.indexed, tally.same, |a.t.files.Keys - PathsOf(found)|, tally.deferred,
                            stats.contentIndexed)
    ensures Pass(reg, a, d, found, stats)
  {
    StaleKept(reg, b, c, found, stats.contentIndexed, done, put, tally);
    PassAdvanced(reg, a, b, c, d, found, stats.contentIndexed, done);
    PutOff(reg, a, d, found, stats.contentIndexed, done, put);
    Difference(Outdated(reg, a.t.files, found), done, put);
  }

  lemma PassKept(reg: Registry, a: View, c: View, found: seq<Scanned>, stats: Stats)
    requires Tree(found) && Pass(reg, a, c, found, stats)
    ensures Kept(reg, a, c, found, stats.contentIndexed)
  {
    OutdatedIn(reg, a.t.files, found);
    forall i | 0 <= i < |found| ensures FileKept(reg, a, c, found[i], stats.contentIndexed) {
      OutdatedAt(reg, a.t.files, found, i);
      OutdatedAt(reg, c.t.files, found, i);
      PathIn(found, i);
    }
  }

  lemma KeptOn(reg: Registry, a: View, b: View, c: View, found: seq<Scanned>, content: bool)
    requires (b == a || Kept(reg, a, b, found, content)) && Kept(reg, b, c, found, content)
    ensures Kept(reg, a, c, found, content)
  {
    if b != a { KeptTwice(reg, a, b, c, found, content); }
  }

  lemma PassAdvances(reg: Registry, a: View, c: View, found: seq<Scanned>, stats: Stats)
    requires Pass(reg, a, c, found, stats)
    ensures stats.deferred > 0 ==> stats.indexed > 0
  {
    var stale, left := Outdated(reg, a.t.files, found), Outdated(reg, c.t.files, found);
    if left != {} { Fewer(left, stale); }
  }

  lemma Fewer(left: set<string>, stale: set<string>)
    requires left < stale
    ensures |left| < |stale|
  {
    assert stale == left + (stale - left) && stale - left != {};
  }

  lemma KeptTwice(reg: Registry, a: View, b: View, c: View, found: seq<Scanned>, content: bool)
    requires Kept(reg, a, b, found, content) && Kept(reg, b, c, found, content)
    ensures Kept(reg, a, c, found, content)
  {
    forall i | 0 <= i < |found| ensures FileKept(reg, a, c, found[i], content) {
      assert FileKept(reg, a, b, found[i], content) && FileKept(reg, b, c, found[i], content);
    }
  }

  lemma IdsIn(files: map<string, FileRow>)
    ensures forall q | q in files :: files[q].id in (set p | p in files :: files[p].id)
  {
  }

  lemma RewrittenOne(reg: Registry, a: View, b: View, f: Scanned, row: FileRow, filled: Origin)
    requires Whole(a) && b.t.files == a.t.files[f.path := row] && b.o == a.o[f.path := filled]
    requires row == FileRow(row.id, reg.hash(f.content), f.mtime, f.size)
             && (f.path in a.t.files ==> row.id == a.t.files[f.path].id)
    requires filled.content == f.content
    ensures Rewritten(reg, a, b, [f], filled.whole, {f.path})
  {
  }

  lemma FillDone(reg: Registry, t: Tables, o: map<string, Origin>, files: map<string, FileRow>,
                 origin: map<string, Origin>, p: string, row: FileRow, found: seq<Symbol>, filled: Origin,
                   symbols: map<nat, SymbolRow>, fts: multiset<FtsRow>)
    requires Sound(reg, t, o) && t.files == files - {p} && o == origin - {p}
    requires (forall q | q in t.files :: t.files[q].id != row.id) && row.hash == reg.hash(filled.content)
    requires reg.extract(p, filled.content) == Some(found)
    requires Entered(Tables(files[p := row], t.symbols, t.fts), p, row.id, found, filled, symbols, fts)
    ensures Sound(reg, Tables(files[p := row], symbols, fts), origin[p := filled])
  {
    EnteredOver(Tables(files[p := row], t.symbols, t.fts), t.files, p, row.id, found, filled, symbols, fts);
    FilledOver(t, files, o, origin, p, row, filled);
    FilledSound(reg, t, o, p, row, filled, Tables(files[p := row], symbols, fts));
  }

  lemma FilledOver(t: Tables, files: map<string, FileRow>, o: map<string, Origin>, origin: map<string, Origin>,
                   p: string, row: FileRow, filled: Origin)
    requires t.files == files - {p} && o == origin - {p}
    ensures t.files[p := row] == files[p := row] && o[p := filled] == origin[p := filled]
  {
  }

  lemma SymbolRowsOnly(reg: Registry, t: Tables, o: map<string, Origin>)
    requires Sound(reg, t, o)
    ensures forall e: FtsRow | e.kind.OfSymbol? && e.ref !in t.symbols :: t.fts[e] == 0
  {
  }
}
