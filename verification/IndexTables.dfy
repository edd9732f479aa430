/** The tables of the code store, and what makes them sound (internal/codeintel/schema.go, index.go). */
module IndexTables {
  import opened Outcomes

  datatype Symbol = Symbol(kind: string, name: string, startByte: int, endByte: int, startLine: int, endLine: int,
                           signature: string, doc: string)

  /** A claimed file as a pass finds it; content is what a read would give, were it readable. */
  datatype Scanned = Scanned(path: string, mtime: int, size: nat, content: string, readable: bool)

  datatype FileRow = FileRow(id: nat, hash: string, mtime: int, size: nat)
  datatype SymbolRow = SymbolRow(file: nat, symbol: Symbol)
  datatype FtsKind = OfSymbol | OfPath | OfFile
  datatype FtsRow = FtsRow(kind: FtsKind, ref: nat, text: string)

  /** The language registry and the content hash. */
  datatype Registry = Registry(hash: string -> string, extract: (string, string) -> Option<seq<Symbol>>)

  /** One file table keyed by its unique path, one symbol table keyed by row id, one bag of search rows. */
  datatype Tables = Tables(files: map<string, FileRow>, symbols: map<nat, SymbolRow>, fts: multiset<FtsRow>)

  /** Where a file's rows came from: the content they describe, the ids of its symbol rows in order,
      and whether its whole text has a search row. */
  datatype Origin = Origin(content: string, ids: seq<nat>, whole: bool)

  function SearchText(s: Symbol): string {
    s.name + "\n" + s.signature + "\n" + s.doc
  }

  // ---- sound tables ----

  ghost predicate FilesSound(reg: Registry, t: Tables, o: map<string, Origin>) {
    && o.Keys == t.files.Keys
    && (forall p, q | p in t.files && q in t.files && t.files[p].id == t.files[q].id :: p == q)
    && (forall p | p in t.files :: t.files[p].hash == reg.hash(o[p].content))
  }

  /** A file's symbol rows are exactly what its content extracts to, in order, under ids of their own. */
  ghost predicate Extracted(reg: Registry, p: string, id: nat, symbols: map<nat, SymbolRow>, o: Origin) {
    && var found := reg.extract(p, o.content);
    && found.Some? && |o.ids| == |found.value|
    && (forall k | 0 <= k < |o.ids| :: o.ids[k] in symbols && symbols[o.ids[k]] == SymbolRow(id, found.value[k]))
    && (forall j, k | 0 <= j < k < |o.ids| :: o.ids[j] != o.ids[k])
  }

  ghost predicate SymbolsSound(reg: Registry, t: Tables, o: map<string, Origin>)
    requires o.Keys == t.files.Keys
  {
    && (forall p | p in t.files :: Extracted(reg, p, t.files[p].id, t.symbols, o[p]))
    && (forall s | s in t.symbols :: exists p | p in t.files :: s in o[p].ids)
  }

  /** The search row of the whole text of one of the files. */
  ghost predicate WholeRow(e: FtsRow, files: map<string, FileRow>, o: map<string, Origin>)
    requires o.Keys == files.Keys
  {
    exists p | p in files :: files[p].id == e.ref && o[p].whole && o[p].content == e.text
  }

  /** The rows search should hold: one for each symbol, one for each path, one for each whole text kept. */
  ghost predicate Belongs(e: FtsRow, t: Tables, o: map<string, Origin>)
    requires o.Keys == t.files.Keys
  {
    match e.kind
    case OfSymbol => e.ref in t.symbols && e.text == SearchText(t.symbols[e.ref].symbol)
    case OfPath => e.text in t.files && t.files[e.text].id == e.ref
    case OfFile => WholeRow(e, t.files, o)
  }

  ghost predicate SearchSound(t: Tables, o: map<string, Origin>)
    requires o.Keys == t.files.Keys
  {
    forall e: FtsRow :: t.fts[e] == if Belongs(e, t, o) then 1 else 0
  }

  /** No row is missing, none is there twice, none points at a file or symbol that is gone. */
  ghost predicate Sound(reg: Registry, t: Tables, o: map<string, Origin>) {
    FilesSound(reg, t, o) && SymbolsSound(reg, t, o) && SearchSound(t, o)
  }

  lemma EmptySound(reg: Registry)
    ensures Sound(reg, Tables(map[], map[], multiset{}), map[])
  {
  }

  // ---- one file's rows taken out ----

  /** The search rows a file's removal takes with it. */
  predicate Doomed(e: FtsRow, id: nat, symbols: map<nat, SymbolRow>) {
    match e.kind
    case OfSymbol => e.ref in symbols && symbols[e.ref].file == id
    case OfPath => e.ref == id
    case OfFile => e.ref == id
  }

  ghost predicate Cleared(t: Tables, id: nat, symbols: map<nat, SymbolRow>, fts: multiset<FtsRow>) {
    && symbols == (map s | s in t.symbols && t.symbols[s].file != id :: t.symbols[s])
    && forall e: FtsRow :: fts[e] == if Doomed(e, id, t.symbols) then 0 else t.fts[e]
  }

  lemma ClearedSymbols(reg: Registry, t: Tables, o: map<string, Origin>, p: string, t': Tables)
    requires Sound(reg, t, o) && p in t.files && Cleared(t, t.files[p].id, t'.symbols, t'.fts)
             && t'.files == t.files - {p}
    ensures SymbolsSound(reg, t', o - {p})
  {
    var id, o' := t.files[p].id, o - {p};
    forall q | q in t'.files ensures Extracted(reg, q, t'.files[q].id, t'.symbols, o'[q]) {
      assert Extracted(reg, q, t.files[q].id, t.symbols, o[q]) && t.files[q].id != id;
    }
    forall s | s in t'.symbols ensures exists q | q in t'.files :: s in o'[q].ids {
      var q :| q in t.files && s in o[q].ids;
      assert Extracted(reg, q, t.files[q].id, t.symbols, o[q]);
      assert q in t'.files && s in o'[q].ids;
    }
  }

  lemma ClearedSearch(reg: Registry, t: Tables, o: map<string, Origin>, p: string, t': Tables)
    requires Sound(reg, t, o) && p in t.files && Cleared(t, t.files[p].id, t'.symbols, t'.fts)
             && t'.files == t.files - {p}
    ensures SearchSound(t', o - {p})
  {
    var id, o' := t.files[p].id, o - {p};
    forall e: FtsRow ensures t'.fts[e] == if Belongs(e, t', o') then 1 else 0 {
      match e.kind
      case OfSymbol =>
      case OfPath => assert e.ref == id && e.text in t.files && t.files[e.text].id == id ==> e.text == p;
      case OfFile =>
        if WholeRow(e, t.files, o) && e.ref != id {
          var q :| q in t.files && t.files[q].id == e.ref && o[q].whole && o[q].content == e.text;
          assert q in t'.files && o'[q] == o[q];
        }
    }
  }

  /** Taking out a file's rows and its file row leaves the other files' rows sound, and nothing of its own. */
  lemma ClearedSound(reg: Registry, t: Tables, o: map<string, Origin>, p: string, t': Tables)
    requires Sound(reg, t, o) && p in t.files && Cleared(t, t.files[p].id, t'.symbols, t'.fts)
             && t'.files == t.files - {p}
    ensures Sound(reg, t', o - {p})
  {
    ClearedSymbols(reg, t, o, p, t');
    ClearedSearch(reg, t, o, p, t');
  }

  // ---- one file's rows put in ----

  /** The first rows of a file's symbols were added to the tables was, under ids no other row had, each with its search
      row. */
  ghost predicate Filling(was: Tables, id: nat, found: seq<Symbol>, ids: seq<nat>, symbols: map<nat, SymbolRow>,
                          fts: multiset<FtsRow>) {
    && |ids| <= |found|
    && (forall j, k | 0 <= j < k < |ids| :: ids[j] != ids[k])
    && (forall k | 0 <= k < |ids| ::
          ids[k] !in was.symbols && ids[k] in symbols && symbols[ids[k]] == SymbolRow(id, found[k]))
    && (forall s | s in was.symbols :: s in symbols && symbols[s] == was.symbols[s])
    && (forall s | s in symbols :: s in was.symbols || s in ids)
    && forall e: FtsRow ::
      fts[e] == if e.kind.OfSymbol? && e.ref in ids then
                  (if e.ref in symbols && e.text == SearchText(symbols[e.ref].symbol) then 1 else 0)
                else was.fts[e]
  }

  lemma FillingNext(was: Tables, id: nat, found: seq<Symbol>, ids: seq<nat>, symbols: map<nat, SymbolRow>,
                    fts: multiset<FtsRow>, s: nat)
    requires Filling(was, id, found, ids, symbols, fts) && |ids| < |found| && s !in symbols
    requires forall e: FtsRow | e.kind.OfSymbol? && e.ref !in was.symbols :: was.fts[e] == 0
    ensures var next := found[|ids|];
            Filling(was, id, found, ids + [s], symbols[s := SymbolRow(id, next)],
                    fts + multiset{FtsRow(OfSymbol, s, SearchText(next))})
  {
  }

  /** All rows of a file were added: its symbols', its path's, and its text's where that is kept. */
  ghost predicate Entered(was: Tables, p: string, id: nat, found: seq<Symbol>, o: Origin, symbols: map<nat, SymbolRow>,
                          fts: multiset<FtsRow>)
  {
    && |o.ids| == |found|
    && exists mid: multiset<FtsRow> ::
      && Filling(was, id, found, o.ids, symbols, mid)
      && fts == mid + multiset{FtsRow(OfPath, id, p)}
                + if o.whole then multiset{FtsRow(OfFile, id, o.content)} else multiset{}
  }

  /** Only the rows of symbols and search matter to what was added. */
  lemma EnteredOver(was: Tables, files: map<string, FileRow>, p: string, id: nat, found: seq<Symbol>, o: Origin,
                    symbols: map<nat, SymbolRow>, fts: multiset<FtsRow>)
    requires Entered(was, p, id, found, o, symbols, fts)
    ensures Entered(was.(files := files), p, id, found, o, symbols, fts)
  {
    var mid :| Filling(was, id, found, o.ids, symbols, mid)
      && fts == mid + multiset{FtsRow(OfPath, id, p)}
                + if o.whole then multiset{FtsRow(OfFile, id, o.content)} else multiset{};
    assert Filling(was.(files := files), id, found, o.ids, symbols, mid);
  }

  /** A file's rows added to sound tables, the file being new to them. */
  ghost predicate Filled(t: Tables, p: string, row: FileRow, found: seq<Symbol>, o: Origin, t': Tables) {
    t'.files == t.files[p := row] && Entered(t, p, row.id, found, o, t'.symbols, t'.fts)
  }

  lemma FilledSymbols(reg: Registry, t: Tables, o: map<string, Origin>, p: string, row: FileRow, fill: Origin,
                      t': Tables)
    requires Sound(reg, t, o) && p !in t.files && (forall q | q in t.files :: t.files[q].id != row.id)
    requires reg.extract(p, fill.content).Some? && Filled(t, p, row, reg.extract(p, fill.content).value, fill, t')
    ensures SymbolsSound(reg, t', o[p := fill])
  {
    var found, o' := reg.extract(p, fill.content).value, o[p := fill];
    forall q | q in t'.files ensures Extracted(reg, q, t'.files[q].id, t'.symbols, o'[q]) {
      if q != p { assert Extracted(reg, q, t.files[q].id, t.symbols, o[q]); }
    }
    forall s | s in t'.symbols ensures exists q | q in t'.files :: s in o'[q].ids {
      if s in t.symbols {
        var q :| q in t.files && s in o[q].ids;
        assert s in o'[q].ids;
      } else {
        assert s in o'[p].ids;
      }
    }
  }

  lemma FilledSearch(reg: Registry, t: Tables, o: map<string, Origin>, p: string, row: FileRow, fill: Origin,
                     t': Tables)
    requires Sound(reg, t, o) && p !in t.files && (forall q | q in t.files :: t.files[q].id != row.id)
    requires reg.extract(p, fill.content).Some? && Filled(t, p, row, reg.extract(p, fill.content).value, fill, t')
    ensures SearchSound(t', o[p := fill])
  {
    var o' := o[p := fill];
    forall e: FtsRow ensures t'.fts[e] == if Belongs(e, t', o') then 1 else 0 {
      match e.kind
      case OfSymbol => SymbolRowAdded(t, o, p, row, reg.extract(p, fill.content).value, fill, t', e);
      case OfPath => PathRowAdded(t, o, p, row, reg.extract(p, fill.content).value, fill, t', e);
      case OfFile => WholeRowAdded(t, o, p, row, fill, e);
    }
  }

  lemma SymbolRowAdded(t: Tables, o: map<string, Origin>, p: string, row: FileRow, found: seq<Symbol>, fill: Origin,
                       t': Tables, e: FtsRow)
    requires o.Keys == t.files.Keys && SearchSound(t, o) && Filled(t, p, row, found, fill, t') && e.kind.OfSymbol?
    ensures t'.fts[e] == if e.ref in t'.symbols && e.text == SearchText(t'.symbols[e.ref].symbol) then 1 else 0
  {
    assert Belongs(e, t, o) <==> e.ref in t.symbols && e.text == SearchText(t.symbols[e.ref].symbol);
  }

  lemma PathRowAdded(t: Tables, o: map<string, Origin>, p: string, row: FileRow, found: seq<Symbol>, fill: Origin,
                     t': Tables, e: FtsRow)
    requires o.Keys == t.files.Keys && SearchSound(t, o) && Filled(t, p, row, found, fill, t') && e.kind.OfPath?
    requires p !in t.files
    ensures t'.fts[e] == if e.text in t'.files && t'.files[e.text].id == e.ref then 1 else 0
  {
    assert Belongs(e, t, o) <==> e.text in t.files && t.files[e.text].id == e.ref;
  }

  lemma WholeRowAdded(t: Tables, o: map<string, Origin>, p: string, row: FileRow, fill: Origin, e: FtsRow)
    requires o.Keys == t.files.Keys && p !in t.files && (forall q | q in t.files :: t.files[q].id != row.id)
    ensures WholeRow(e, t.files[p := row], o[p := fill])
       <==> WholeRow(e, t.files, o) || (fill.whole && e.ref == row.id && e.text == fill.content)
    ensures WholeRow(e, t.files, o) ==> e.ref != row.id
  {
    if WholeRow(e, t.files, o) {
      var q :| q in t.files && t.files[q].id == e.ref && o[q].whole && o[q].content == e.text;
      assert o[p := fill][q] == o[q] && t.files[p := row][q] == t.files[q];
    }
    if fill.whole && e.ref == row.id && e.text == fill.content {
      assert o[p := fill][p] == fill && t.files[p := row][p] == row;
    }
  }

  lemma FilledSound(reg: Registry, t: Tables, o: map<string, Origin>, p: string, row: FileRow, fill: Origin, t': Tables)
    requires Sound(reg, t, o) && p !in t.files && (forall q | q in t.files :: t.files[q].id != row.id)
    requires row.hash == reg.hash(fill.content)
    requires reg.extract(p, fill.content).Some? && Filled(t, p, row, reg.extract(p, fill.content).value, fill, t')
    ensures Sound(reg, t', o[p := fill])
  {
    FilledSymbols(reg, t, o, p, row, fill, t');
    FilledSearch(reg, t, o, p, row, fill, t');
  }

  // ---- whole texts dropped ----

  function WithoutWhole(o: map<string, Origin>): map<string, Origin> {
    map p | p in o :: o[p].(whole := false)
  }

  lemma DroppedSound(reg: Registry, t: Tables, o: map<string, Origin>, fts: multiset<FtsRow>)
    requires Sound(reg, t, o) && forall e: FtsRow :: fts[e] == if e.kind.OfFile? then 0 else t.fts[e]
    ensures Sound(reg, t.(fts := fts), WithoutWhole(o))
  {
    DroppedSymbols(reg, t, o, fts);
    DroppedSearch(t, o, fts);
  }

  lemma DroppedSymbols(reg: Registry, t: Tables, o: map<string, Origin>, fts: multiset<FtsRow>)
    requires o.Keys == t.files.Keys && SymbolsSound(reg, t, o)
    ensures SymbolsSound(reg, t.(fts := fts), WithoutWhole(o))
  {
    var o' := WithoutWhole(o);
    forall p | p in t.files ensures Extracted(reg, p, t.files[p].id, t.symbols, o'[p]) {
      assert Extracted(reg, p, t.files[p].id, t.symbols, o[p]);
    }
    forall s | s in t.symbols ensures exists p | p in t.files :: s in o'[p].ids {
      var p :| p in t.files && s in o[p].ids;
      assert s in o'[p].ids;
    }
  }

  lemma DroppedSearch(t: Tables, o: map<string, Origin>, fts: multiset<FtsRow>)
    requires o.Keys == t.files.Keys && SearchSound(t, o)
    requires forall e: FtsRow :: fts[e] == if e.kind.OfFile? then 0 else t.fts[e]
    ensures SearchSound(t.(fts := fts), WithoutWhole(o))
  {
    var o', t' := WithoutWhole(o), t.(fts := fts);
    forall e: FtsRow ensures fts[e] == if Belongs(e, t', o') then 1 else 0 {
      if !e.kind.OfFile? { assert Belongs(e, t', o') <==> Belongs(e, t, o); }
    }
  }
}
