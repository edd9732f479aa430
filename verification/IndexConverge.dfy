/** What repeated passes converge to: a store built from scratch, up to row ids (internal/codeintel). */
module IndexConverge {
  import opened Outcomes
  import opened IndexTables
  import opened CodeIndex

  /** A file whose time and size are those of its row still has the content the row was hashed from. */
  ghost predicate Honest(reg: Registry, files: map<string, FileRow>, found: seq<Scanned>) {
    forall i | 0 <= i < |found| && SameStat(files, found[i]) :: files[found[i].path].hash == reg.hash(found[i].content)
  }

  /** No file of the tree has another content of the same hash in the store. */
  ghost predicate NoCollision(reg: Registry, a: View, found: seq<Scanned>) {
    forall i | 0 <= i < |found| && found[i].path in a.o
      && reg.hash(a.o[found[i].path].content) == reg.hash(found[i].content) ::
      a.o[found[i].path].content == found[i].content
  }

  /** What the store holds of the files a pass leaves alone is what they contain. */
  ghost predicate Faithful(reg: Registry, a: View, found: seq<Scanned>)
    requires Whole(a)
  {
    forall i | 0 <= i < |found| && Passes(reg, a.t.files, found[i]) :: a.o[found[i].path].content == found[i].content
  }

  /** The store holds this tree: a sound row set for each of its files' contents, and for nothing else. */
  ghost predicate Describes(reg: Registry, v: View, found: seq<Scanned>) {
    && Sound(reg, v.t, v.o) && v.t.files.Keys == PathsOf(found)
    && forall i | 0 <= i < |found| :: found[i].path in v.o && v.o[found[i].path].content == found[i].content
  }

  /** A store whose passes have nothing left to do describes the tree exactly when what they left alone was right: their
      gates are time and size, and the hash. */
  lemma Converged(reg: Registry, a: View, c: View, found: seq<Scanned>, content: bool)
    requires Tree(found) && Whole(a) && Sound(reg, c.t, c.o)
    requires Kept(reg, a, c, found, content) && Outdated(reg, c.t.files, found) == {}
    ensures Describes(reg, c, found) <==> Faithful(reg, a, found)
  {
    forall i | 0 <= i < |found|
      ensures found[i].path in c.o
      ensures c.o[found[i].path].content
           == if Passes(reg, a.t.files, found[i]) then a.o[found[i].path].content else found[i].content
    {
      OutdatedAt(reg, c.t.files, found, i);
      assert FileKept(reg, a, c, found[i], content) && Passes(reg, c.t.files, found[i]);
    }
  }

  /** What passes leave alone is right exactly when no change hid behind the time and size of its row, and none behind
      an equal hash. */
  lemma FaithfulWhen(reg: Registry, a: View, found: seq<Scanned>)
    requires Sound(reg, a.t, a.o)
    ensures Faithful(reg, a, found) <==> Honest(reg, a.t.files, found) && NoCollision(reg, a, found)
  {
    forall i | 0 <= i < |found| && found[i].path in a.o
      ensures a.t.files[found[i].path].hash == reg.hash(a.o[found[i].path].content)
    {
    }
    if Faithful(reg, a, found) {
      forall i | 0 <= i < |found| && SameStat(a.t.files, found[i])
        ensures a.t.files[found[i].path].hash == reg.hash(found[i].content)
      {
        assert Passes(reg, a.t.files, found[i]);
      }
      forall i | 0 <= i < |found| && found[i].path in a.o
        && reg.hash(a.o[found[i].path].content) == reg.hash(found[i].content)
        ensures a.o[found[i].path].content == found[i].content
      {
        assert Passes(reg, a.t.files, found[i]);
      }
    }
  }

  /** One change that kept its file's time and size is enough: no store that passes settle on describes the tree. */
  lemma HiddenChange(reg: Registry, a: View, c: View, found: seq<Scanned>, content: bool, i: nat)
    requires Tree(found) && Whole(a) && Sound(reg, c.t, c.o)
    requires Kept(reg, a, c, found, content) && Outdated(reg, c.t.files, found) == {}
    requires i < |found| && SameStat(a.t.files, found[i]) && a.o[found[i].path].content != found[i].content
    ensures !Describes(reg, c, found) && c.o[found[i].path].content == a.o[found[i].path].content
  {
    assert Passes(reg, a.t.files, found[i]);
    assert FileKept(reg, a, c, found[i], content);
    Converged(reg, a, c, found, content);
  }

  // ---- two stores of one tree ----

  /** The file of a symbol row. */
  ghost function OwnerOf(v: View, s: nat): string
    requires exists p | p in v.t.files :: p in v.o && s in v.o[p].ids
  {
    var p :| p in v.t.files && p in v.o && s in v.o[p].ids;
    p
  }

  ghost function RankOf(ids: seq<nat>, s: nat): (k: nat)
    requires s in ids
    ensures k < |ids| && ids[k] == s
  {
    var k: nat :| k < |ids| && ids[k] == s;
    k
  }

  lemma Owned(reg: Registry, v: View, s: nat)
    requires Sound(reg, v.t, v.o) && s in v.t.symbols
    ensures exists p | p in v.t.files :: p in v.o && s in v.o[p].ids
    ensures v.t.symbols[s].file == v.t.files[OwnerOf(v, s)].id
  {
    var p :| p in v.t.files && s in v.o[p].ids;
    assert p in v.o;
    var q := OwnerOf(v, s);
    assert Extracted(reg, q, v.t.files[q].id, v.t.symbols, v.o[q]);
  }

  /** The row of b that holds the same symbol of the same file. */
  ghost function SymbolFor(reg: Registry, a: View, b: View, s: nat): (r: nat)
    requires Sound(reg, a.t, a.o) && SameTree(reg, a, b) && s in a.t.symbols
    ensures r in b.t.symbols
    ensures b.t.symbols[r] == SymbolRow(b.t.files[OwnerIn(reg, a, s)].id, a.t.symbols[s].symbol)
    ensures r in b.o[OwnerIn(reg, a, s)].ids
  {
    var p := OwnerIn(reg, a, s);
    assert Extracted(reg, p, a.t.files[p].id, a.t.symbols, a.o[p]);
    assert Extracted(reg, p, b.t.files[p].id, b.t.symbols, b.o[p]);
    b.o[p].ids[RankOf(a.o[p].ids, s)]
  }

  ghost function OwnerIn(reg: Registry, v: View, s: nat): (p: string)
    requires Sound(reg, v.t, v.o) && s in v.t.symbols
    ensures p in v.t.files && s in v.o[p].ids && v.t.symbols[s].file == v.t.files[p].id
  {
    Owned(reg, v, s);
    OwnerOf(v, s)
  }

  ghost predicate SameTree(reg: Registry, a: View, b: View) {
    && Sound(reg, a.t, a.o) && Sound(reg, b.t, b.o) && a.t.files.Keys == b.t.files.Keys
    && forall p | p in a.o :: b.o[p].content == a.o[p].content
  }

  /** b is a with its file ids renamed by fileID and its symbol ids by symbolID; times and sizes apart. */
  ghost predicate Renamed(a: Tables, b: Tables, fileID: map<nat, nat>, symbolID: map<nat, nat>) {
    && a.files.Keys == b.files.Keys
    && (forall p | p in a.files ::
          a.files[p].id in fileID && fileID[a.files[p].id] == b.files[p].id && a.files[p].hash == b.files[p].hash)
    && symbolID.Keys == a.symbols.Keys && OneToOne(symbolID) && symbolID.Values == b.symbols.Keys
    && (forall s | s in a.symbols :: a.symbols[s].file in fileID
          && b.symbols[symbolID[s]] == SymbolRow(fileID[a.symbols[s].file], a.symbols[s].symbol))
    && (forall s, text | s in a.symbols ::
          a.fts[FtsRow(OfSymbol, s, text)] == b.fts[FtsRow(OfSymbol, symbolID[s], text)])
    && (forall p, text | p in a.files ::
          a.fts[FtsRow(OfPath, a.files[p].id, text)] == b.fts[FtsRow(OfPath, b.files[p].id, text)])
    && NoDangling(a) && NoDangling(b)
  }

  ghost predicate OneToOne(m: map<nat, nat>) {
    forall x, y | x in m && y in m && m[x] == m[y] :: x == y
  }

  /** Every search row belongs to a symbol or a file that is there. */
  ghost predicate NoDangling(t: Tables) {
    forall e: FtsRow | e in t.fts ::
      if e.kind.OfSymbol? then e.ref in t.symbols else exists p | p in t.files :: t.files[p].id == e.ref
  }

  ghost function FileIDs(a: View, b: View): map<nat, nat>
    requires a.t.files.Keys == b.t.files.Keys
    requires forall p, q | p in a.t.files && q in a.t.files && a.t.files[p].id == a.t.files[q].id :: p == q
  {
    map p | p in a.t.files :: a.t.files[p].id := b.t.files[p].id
  }

  ghost function SymbolIDs(reg: Registry, a: View, b: View): map<nat, nat>
    requires SameTree(reg, a, b)
  {
    map s | s in a.t.symbols :: SymbolFor(reg, a, b, s)
  }

  /** Going over to the other store and back is going nowhere. */
  lemma ThereAndBack(reg: Registry, a: View, b: View, s: nat)
    requires SameTree(reg, a, b) && SameTree(reg, b, a) && s in a.t.symbols
    ensures SymbolFor(reg, b, a, SymbolFor(reg, a, b, s)) == s
  {
    var p, r := OwnerIn(reg, a, s), SymbolFor(reg, a, b, s);
    OwnersAgree(reg, a, b, s);
    ExtractedAt(reg, a, p);
    ExtractedAt(reg, b, p);
    OneRank(b.o[p].ids, RankOf(a.o[p].ids, s), RankOf(b.o[p].ids, r));
  }

  lemma ExtractedAt(reg: Registry, v: View, p: string)
    requires Sound(reg, v.t, v.o) && p in v.t.files
    ensures Extracted(reg, p, v.t.files[p].id, v.t.symbols, v.o[p])
  {
  }

  lemma OwnersAgree(reg: Registry, a: View, b: View, s: nat)
    requires SameTree(reg, a, b) && s in a.t.symbols
    ensures OwnerIn(reg, b, SymbolFor(reg, a, b, s)) == OwnerIn(reg, a, s)
  {
    var p, r := OwnerIn(reg, a, s), SymbolFor(reg, a, b, s);
    assert b.t.files[p].id == b.t.symbols[r].file == b.t.files[OwnerIn(reg, b, r)].id;
  }

  lemma OneRank(ids: seq<nat>, j: nat, k: nat)
    requires j < |ids| && k < |ids| && ids[j] == ids[k] && forall x, y | 0 <= x < y < |ids| :: ids[x] != ids[y]
    ensures j == k
  {
  }

  lemma SymbolIDsOneToOne(reg: Registry, a: View, b: View)
    requires SameTree(reg, a, b) && SameTree(reg, b, a)
    ensures OneToOne(SymbolIDs(reg, a, b)) && SymbolIDs(reg, a, b).Values == b.t.symbols.Keys
  {
    var m := SymbolIDs(reg, a, b);
    forall x, y | x in m && y in m && m[x] == m[y] ensures x == y {
      ThereAndBack(reg, a, b, x);
      ThereAndBack(reg, a, b, y);
    }
    forall r | r in b.t.symbols ensures r in m.Values {
      ThereAndBack(reg, b, a, r);
      assert m[SymbolFor(reg, b, a, r)] == r;
    }
  }

  lemma SoundNoDangling(reg: Registry, v: View)
    requires Sound(reg, v.t, v.o)
    ensures NoDangling(v.t)
  {
    forall e: FtsRow | e in v.t.fts
      ensures if e.kind.OfSymbol? then e.ref in v.t.symbols else exists p | p in v.t.files :: v.t.files[p].id == e.ref
    {
      assert Belongs(e, v.t, v.o);
    }
  }

  lemma SearchRenamed(reg: Registry, a: View, b: View, s: nat, text: string)
    requires SameTree(reg, a, b) && s in a.t.symbols
    ensures a.t.fts[FtsRow(OfSymbol, s, text)] == b.t.fts[FtsRow(OfSymbol, SymbolFor(reg, a, b, s), text)]
  {
    var r := SymbolFor(reg, a, b, s);
    SymbolSearch(reg, a, s, text);
    SymbolSearch(reg, b, r, text);
  }

  lemma SymbolSearch(reg: Registry, v: View, s: nat, text: string)
    requires Sound(reg, v.t, v.o) && s in v.t.symbols
    ensures v.t.fts[FtsRow(OfSymbol, s, text)] == if text == SearchText(v.t.symbols[s].symbol) then 1 else 0
  {
    assert Belongs(FtsRow(OfSymbol, s, text), v.t, v.o) <==> text == SearchText(v.t.symbols[s].symbol);
  }

  lemma PathRenamed(reg: Registry, a: View, b: View, p: string, text: string)
    requires SameTree(reg, a, b) && p in a.t.files
    ensures a.t.fts[FtsRow(OfPath, a.t.files[p].id, text)] == b.t.fts[FtsRow(OfPath, b.t.files[p].id, text)]
  {
    var e, f := FtsRow(OfPath, a.t.files[p].id, text), FtsRow(OfPath, b.t.files[p].id, text);
    assert Belongs(e, a.t, a.o) <==> text == p;
    assert Belongs(f, b.t, b.o) <==> text == p;
  }

  /** Two stores that describe one tree differ in ids alone, whatever passes made them. */
  lemma SameUpToIds(reg: Registry, a: View, b: View, found: seq<Scanned>)
    requires Tree(found) && Describes(reg, a, found) && Describes(reg, b, found)
    ensures exists fileID, symbolID :: Renamed(a.t, b.t, fileID, symbolID)
  {
    SameTrees(reg, a, b, found);
    var fileID, symbolID := FileIDs(a, b), SymbolIDs(reg, a, b);
    FilesRenamed(reg, a, b);
    SymbolIDsOneToOne(reg, a, b);
    SymbolsRenamed(reg, a, b);
    SoundNoDangling(reg, a);
    SoundNoDangling(reg, b);
    forall s, text | s in a.t.symbols
      ensures a.t.fts[FtsRow(OfSymbol, s, text)] == b.t.fts[FtsRow(OfSymbol, symbolID[s], text)]
    {
      SearchRenamed(reg, a, b, s, text);
    }
    forall p, text | p in a.t.files
      ensures a.t.fts[FtsRow(OfPath, a.t.files[p].id, text)] == b.t.fts[FtsRow(OfPath, b.t.files[p].id, text)]
    {
      PathRenamed(reg, a, b, p, text);
    }
    assert Renamed(a.t, b.t, fileID, symbolID);
  }

  /** A store brought up to date by passes is the store an empty one would have become, if what they left alone was
      right. */
  lemma AsFromScratch(reg: Registry, a: View, c: View, d: View, found: seq<Scanned>)
    requires Tree(found) && Whole(a) && Faithful(reg, a, found) && Sound(reg, c.t, c.o) && Sound(reg, d.t, d.o)
    requires Kept(reg, a, c, found, WithContent(found)) && Outdated(reg, c.t.files, found) == {}
    requires Kept(reg, View(Tables(map[], map[], multiset{}), map[]), d, found, WithContent(found))
    requires Outdated(reg, d.t.files, found) == {}
    ensures exists fileID, symbolID :: Renamed(c.t, d.t, fileID, symbolID)
  {
    Converged(reg, a, c, found, WithContent(found));
    Converged(reg, View(Tables(map[], map[], multiset{}), map[]), d, found, WithContent(found));
    SameUpToIds(reg, c, d, found);
  }

  lemma SameTrees(reg: Registry, a: View, b: View, found: seq<Scanned>)
    requires Tree(found) && Describes(reg, a, found) && Describes(reg, b, found)
    ensures SameTree(reg, a, b) && SameTree(reg, b, a)
  {
    forall p | p in a.o ensures b.o[p].content == a.o[p].content {
      var i :| 0 <= i < |found| && found[i].path == p;
    }
  }

  lemma FilesRenamed(reg: Registry, a: View, b: View)
    requires SameTree(reg, a, b)
    ensures forall p | p in a.t.files ::
      a.t.files[p].id in FileIDs(a, b) && FileIDs(a, b)[a.t.files[p].id] == b.t.files[p].id
    ensures forall p | p in a.t.files :: a.t.files[p].hash == b.t.files[p].hash
  {
    forall p | p in a.t.files ensures a.t.files[p].hash == b.t.files[p].hash { HashesAgree(reg, a, b, p); }
    IDsIn(a, b);
  }

  lemma HashesAgree(reg: Registry, a: View, b: View, p: string)
    requires SameTree(reg, a, b) && p in a.t.files
    ensures a.t.files[p].hash == b.t.files[p].hash
  {
    assert a.t.files[p].hash == reg.hash(a.o[p].content) && b.t.files[p].hash == reg.hash(b.o[p].content);
  }

  lemma IDsIn(a: View, b: View)
    requires a.t.files.Keys == b.t.files.Keys
    requires forall p, q | p in a.t.files && q in a.t.files && a.t.files[p].id == a.t.files[q].id :: p == q
    ensures forall p | p in a.t.files ::
      a.t.files[p].id in FileIDs(a, b) && FileIDs(a, b)[a.t.files[p].id] == b.t.files[p].id
  {
  }

  lemma SymbolsRenamed(reg: Registry, a: View, b: View)
    requires SameTree(reg, a, b)
    ensures var fileID, symbolID := FileIDs(a, b), SymbolIDs(reg, a, b);
      forall s | s in a.t.symbols ::
        && a.t.symbols[s].file in fileID
        && b.t.symbols[symbolID[s]] == SymbolRow(fileID[a.t.symbols[s].file], a.t.symbols[s].symbol)
  {
    FilesRenamed(reg, a, b);
    forall s | s in a.t.symbols
      ensures a.t.symbols[s].file in FileIDs(a, b)
      ensures b.t.symbols[SymbolFor(reg, a, b, s)]
           == SymbolRow(FileIDs(a, b)[a.t.symbols[s].file], a.t.symbols[s].symbol)
    {
      SymbolRenamed(reg, a, b, s);
    }
  }

  lemma SymbolRenamed(reg: Registry, a: View, b: View, s: nat)
    requires SameTree(reg, a, b) && s in a.t.symbols
    ensures a.t.symbols[s].file in FileIDs(a, b)
    ensures b.t.symbols[SymbolFor(reg, a, b, s)] == SymbolRow(FileIDs(a, b)[a.t.symbols[s].file], a.t.symbols[s].symbol)
  {
    FilesRenamed(reg, a, b);
    var p := OwnerIn(reg, a, s);
    assert a.t.files[p].id in FileIDs(a, b);
  }

  // ---- whole texts ----

  /** Search finds whole texts in every file of a settled tree exactly when every file the passes left alone had its
      text there before: growing past the size limit drops the texts, and shrinking back does not restore them. */
  lemma WholeTextsComplete(reg: Registry, a: View, c: View, found: seq<Scanned>)
    requires Tree(found) && Kept(reg, a, c, found, true) && Outdated(reg, c.t.files, found) == {}
    ensures (forall p | p in c.o :: c.o[p].whole)
       <==> (forall i | 0 <= i < |found| && Passes(reg, a.t.files, found[i]) :: a.o[found[i].path].whole)
  {
    forall i | 0 <= i < |found|
      ensures found[i].path in c.o
      ensures c.o[found[i].path].whole == (Passes(reg, a.t.files, found[i]) ==> a.o[found[i].path].whole)
    {
      OutdatedAt(reg, c.t.files, found, i);
      assert FileKept(reg, a, c, found[i], true);
    }
    forall p | p in c.o ensures exists i :: 0 <= i < |found| && found[i].path == p {
      assert p in PathsOf(found);
    }
  }

  /** Over the size limit no whole text is left. */
  lemma WholeTextsDropped(reg: Registry, a: View, c: View, found: seq<Scanned>)
    requires Tree(found) && Kept(reg, a, c, found, false) && Outdated(reg, c.t.files, found) == {}
    ensures forall p | p in c.o :: !c.o[p].whole
  {
    forall p | p in c.o ensures !c.o[p].whole {
      var i :| 0 <= i < |found| && found[i].path == p;
      OutdatedAt(reg, c.t.files, found, i);
      assert FileKept(reg, a, c, found[i], false);
    }
  }

  /** A tree that grew past the limit and shrank back: a file that stayed as it was all along is without its whole
      text. */
  lemma TextsNotRestored(reg: Registry, a: View, b: View, c: View, big: seq<Scanned>, small: seq<Scanned>, i: nat,
                         j: nat)
    requires Tree(big) && !WithContent(big) && Kept(reg, a, b, big, WithContent(big))
             && Outdated(reg, b.t.files, big) == {}
    requires Tree(small) && WithContent(small) && Kept(reg, b, c, small, WithContent(small))
             && Outdated(reg, c.t.files, small) == {}
    requires i < |big| && j < |small| && big[i] == small[j]
    ensures small[j].path in c.o && !c.o[small[j].path].whole
  {
    WholeTextsDropped(reg, a, b, big);
    OutdatedAt(reg, b.t.files, big, i);
    assert FileKept(reg, b, c, small[j], true);
  }
}
