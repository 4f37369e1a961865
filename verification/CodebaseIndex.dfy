/**
 The index of src/codebase-index/indexer.ts: the files of a project with their symbols and imports,
 and the maps derived from them. Walking, reading and parsing come in as the answers of a disk.
 Maps that the source iterates over are sequences of entries in insertion order.
 */
module CodebaseIndex {
  import opened Wrappers

  const MAX_FILES := 5000

  datatype Kind = Function | Class | Variable | Import | Export | Interface | TypeAlias | Route | Config

  datatype Symbol = Symbol(name: string, kind: Kind, exported: bool, line: nat)

  // An edge to the empty path is one that was not resolved.
  datatype ImportEdge = ImportEdge(toFile: string, symbol: string)

  datatype FileIndex = FileIndex(symbols: seq<Symbol>, imports: seq<ImportEdge>, contentHash: string)

  datatype Entry = Entry(path: string, file: FileIndex)

  type Files = seq<Entry>

  // ----- an ordered map of files

  function Position(files: Files, p: string): (i: nat)
    ensures i <= |files| && (i < |files| ==> files[i].path == p)
    ensures forall j :: 0 <= j < i ==> files[j].path != p
  {
    if files == [] || files[0].path == p then 0 else 1 + Position(files[1..], p)
  }

  function Lookup(files: Files, p: string): Option<FileIndex> {
    var i := Position(files, p);
    if i < |files| then Some(files[i].file) else None
  }

  function Put(files: Files, p: string, file: FileIndex): Files {
    var i := Position(files, p);
    if i < |files| then files[i := Entry(p, file)] else files + [Entry(p, file)]
  }

  predicate Distinct(files: Files) {
    forall i, j :: 0 <= i < j < |files| ==> files[i].path != files[j].path
  }

  predicate HasPath(files: Files, p: string) {
    exists i :: 0 <= i < |files| && files[i].path == p
  }

  lemma PositionIs(files: Files, i: nat)
    requires Distinct(files) && i < |files|
    ensures Position(files, files[i].path) == i
  {
  }

  lemma PutKeepsDistinct(files: Files, p: string, file: FileIndex)
    requires Distinct(files)
    ensures Distinct(Put(files, p, file))
  {
  }

  lemma LookupPut(files: Files, p: string, file: FileIndex, q: string)
    requires Distinct(files)
    ensures Lookup(Put(files, p, file), q) == if q == p then Some(file) else Lookup(files, q)
  {
    var after := Put(files, p, file);
    PutKeepsDistinct(files, p, file);
    var i, j := Position(files, p), Position(files, q);
    hide Position;
    if q == p {
      PositionIs(after, i);
    } else if j < |files| {
      PositionIs(after, j);
    }
  }

  // ----- what the derived maps should hold

  // Files an import list resolves to, with repetitions.
  function Targets(imports: seq<ImportEdge>): seq<string> {
    if imports == [] then [] else
      var last := imports[|imports| - 1];
      Targets(imports[..|imports| - 1]) + if last.toFile == "" then [] else [last.toFile]
  }

  // First occurrences only.
  function Unique(xs: seq<string>): seq<string> {
    if xs == [] then [] else
      var u := Unique(xs[..|xs| - 1]);
      if xs[|xs| - 1] in u then u else u + [xs[|xs| - 1]]
  }

  // The files that import d, in the order of the index.
  function Importers(files: Files, d: string): seq<string> {
    if files == [] then [] else
      var last := files[|files| - 1];
      Importers(files[..|files| - 1], d) + if d in Targets(last.file.imports) then [last.path] else []
  }

  predicate Eligible(s: Symbol) {
    !s.kind.Import? && !s.kind.Route? && !s.kind.Config?
  }

  // All symbols, in the order of the index.
  function Flat(files: Files): seq<Symbol> {
    if files == [] then [] else Flat(files[..|files| - 1]) + files[|files| - 1].file.symbols
  }

  // The first eligible symbol of a name, or the first exported one.
  function First(symbols: seq<Symbol>, name: string, exported: bool): Option<Symbol> {
    if symbols == [] then None else
      var last := symbols[|symbols| - 1];
      First(symbols[..|symbols| - 1], name, exported).OrElse(
        if Eligible(last) && last.name == name && (exported ==> last.exported) then Some(last) else None)
  }

  function Definition(symbols: seq<Symbol>, name: string): Option<Symbol> {
    First(symbols, name, true).OrElse(First(symbols, name, false))
  }

  ghost predicate Defines(table: map<string, Symbol>, symbols: seq<Symbol>) {
    forall name: string ::
      var definition := Definition(symbols, name);
      (name in table <==> definition.Some?) && (name in table ==> table[name] == definition.value)
  }

  ghost predicate Forward(graph: map<string, seq<string>>, files: Files) {
    && (forall p :: p in graph <==> HasPath(files, p))
    && (forall i :: 0 <= i < |files| ==> files[i].path in graph && graph[files[i].path] == Unique(Targets(files[i].file.imports)))
  }

  function ListAt(graph: map<string, seq<string>>, p: string): seq<string> {
    if p in graph then graph[p] else []
  }

  ghost predicate Backward(graph: map<string, seq<string>>, files: Files) {
    forall d: string :: ListAt(graph, d) == Importers(files, d)
  }

  // ----- the disk

  datatype Parsed = Parsed(symbols: seq<Symbol>, imports: seq<ImportEdge>)

  // The walk, the content hashes of the readable files, and the parses of the regular ones.
  datatype Disk = Disk(walk: seq<string>, hashes: map<string, string>, parses: map<string, Parsed>)

  function ParseFile(disk: Disk, p: string): Option<FileIndex> {
    if p in disk.hashes && p in disk.parses then
      Some(FileIndex(disk.parses[p].symbols, disk.parses[p].imports, disk.hashes[p]))
    else None
  }

  // The files of a full index of the first n walked paths.
  function Collected(disk: Disk, n: nat): Files
    requires n <= |disk.walk|
  {
    if n == 0 then [] else
      var before := Collected(disk, n - 1);
      var file := ParseFile(disk, disk.walk[n - 1]);
      if file.Some? then Put(before, disk.walk[n - 1], file.value) else before
  }

  // How many of the first n walked paths were parsed.
  function Parses(disk: Disk, n: nat): nat
    requires n <= |disk.walk|
  {
    if n == 0 then 0 else Parses(disk, n - 1) + if ParseFile(disk, disk.walk[n - 1]).Some? then 1 else 0
  }

  // The walk in full, or up to the limit of 5000 parses.
  predicate IsFullIndex(files: Files, disk: Disk) {
    exists n: nat ::
      (n <= |disk.walk| && files == Collected(disk, n)
       && Parses(disk, n) <= 5000 && (n < |disk.walk| ==> Parses(disk, n) == 5000))
  }

  // A walked path replaces its entry when it reads, parses and has a new hash.
  function Renewed(files: Files, disk: Disk, p: string): Option<FileIndex> {
    var file, existing := ParseFile(disk, p), Lookup(files, p);
    if file.None? || (existing.Some? && existing.value.contentHash == file.value.contentHash) then None else file
  }

  function Absorbed(files: Files, disk: Disk, n: nat): Files
    requires n <= |disk.walk|
  {
    if n == 0 then files else
      var before := Absorbed(files, disk, n - 1);
      var file := Renewed(before, disk, disk.walk[n - 1]);
      if file.Some? then Put(before, disk.walk[n - 1], file.value) else before
  }

  // The entries whose paths were seen.
  function Kept(files: Files, seen: seq<string>): Files {
    if files == [] then [] else
      var last := files[|files| - 1];
      Kept(files[..|files| - 1], seen) + if last.path in seen then [last] else []
  }

  function Refreshed(files: Files, disk: Disk): Files {
    Kept(Absorbed(files, disk, |disk.walk|), disk.walk)
  }

  // ----- steps of the specification

  lemma TargetsStep(imports: seq<ImportEdge>, k: nat)
    requires k < |imports|
    ensures Targets(imports[..k + 1]) == Targets(imports[..k]) + if imports[k].toFile == "" then [] else [imports[k].toFile]
  {
    assert imports[..k + 1][..k] == imports[..k];
  }

  lemma UniqueStep(xs: seq<string>, x: string)
    ensures Unique(xs + [x]) == if x in Unique(xs) then Unique(xs) else Unique(xs) + [x]
  {
    assert (xs + [x])[..|xs|] == xs;
  }

  lemma {:induction false} TargetsAre(imports: seq<ImportEdge>, d: string)
    ensures d in Targets(imports) <==> d != "" && exists i :: 0 <= i < |imports| && imports[i].toFile == d
  {
    if imports != [] {
      var n := |imports| - 1;
      TargetsAre(imports[..n], d);
      if i :| 0 <= i < n && imports[..n][i].toFile == d {
        assert imports[i].toFile == d;
      }
    }
  }

  predicate NoDuplicates(xs: seq<string>) {
    forall i, j :: 0 <= i < j < |xs| ==> xs[i] != xs[j]
  }

  lemma {:induction false} UniqueIs(xs: seq<string>)
    ensures NoDuplicates(Unique(xs))
    ensures forall x :: x in Unique(xs) <==> x in xs
  {
    if xs != [] {
      UniqueIs(xs[..|xs| - 1]);
      assert xs == xs[..|xs| - 1] + [xs[|xs| - 1]];
    }
  }

  lemma ImportersStep(files: Files, k: nat, d: string)
    requires k < |files|
    ensures Importers(files[..k + 1], d) ==
      Importers(files[..k], d) + if d in Targets(files[k].file.imports) then [files[k].path] else []
  {
    assert files[..k + 1][..k] == files[..k];
  }

  // Some import of file f resolves to d.
  predicate Imports(files: Files, f: string, d: string) {
    exists i :: 0 <= i < |files| && files[i].path == f && d in Targets(files[i].file.imports)
  }

  lemma ImportsStep(files: Files, f: string, d: string)
    requires files != []
    ensures var last := files[|files| - 1];
      Imports(files, f, d) <==> Imports(files[..|files| - 1], f, d) || (last.path == f && d in Targets(last.file.imports))
  {
    hide Targets;
    var n := |files| - 1;
    if i :| 0 <= i < n && files[..n][i].path == f && d in Targets(files[..n][i].file.imports) {
      assert files[i].path == f;
    }
  }

  lemma {:induction false} ImportersAre(files: Files, d: string, f: string)
    ensures f in Importers(files, d) <==> Imports(files, f, d)
  {
    if files != [] {
      ImportersAre(files[..|files| - 1], d, f);
      ImportsStep(files, f, d);
    }
    hide Targets, Imports;
  }

  lemma {:induction false} ImportersOnce(files: Files, d: string)
    requires Distinct(files)
    ensures NoDuplicates(Importers(files, d))
  {
    if files != [] {
      var n := |files| - 1;
      ImportersOnce(files[..n], d);
      ImportersAre(files[..n], d, files[n].path);
      hide Targets;
    }
  }

  lemma FlatStep(files: Files, k: nat)
    requires k < |files|
    ensures Flat(files[..k + 1]) == Flat(files[..k]) + files[k].file.symbols
  {
    assert files[..k + 1][..k] == files[..k];
  }

  lemma FirstStep(symbols: seq<Symbol>, s: Symbol, name: string, exported: bool)
    ensures First(symbols + [s], name, exported) == First(symbols, name, exported).OrElse(
      if Eligible(s) && s.name == name && (exported ==> s.exported) then Some(s) else None)
  {
    assert (symbols + [s])[..|symbols|] == symbols;
  }

  /** The first of a kind: eligible, of that name, exported if asked for, and nothing before it is. */
  lemma {:induction false} FirstIs(symbols: seq<Symbol>, name: string, exported: bool)
    ensures First(symbols, name, exported).None? ==>
      forall i :: 0 <= i < |symbols| ==> !Matches(symbols[i], name, exported)
    ensures First(symbols, name, exported).Some? ==>
      exists i :: 0 <= i < |symbols| && symbols[i] == First(symbols, name, exported).value && Matches(symbols[i], name, exported)
        && forall j :: 0 <= j < i ==> !Matches(symbols[j], name, exported)
  {
    if symbols != [] {
      var n := |symbols| - 1;
      var before := symbols[..n];
      FirstIs(before, name, exported);
      MatchesIs(symbols[n], name, exported);
      hide Eligible, Matches;
      if First(before, name, exported).Some? {
        var i :| 0 <= i < n && before[i] == First(before, name, exported).value && Matches(before[i], name, exported)
          && forall j :: 0 <= j < i ==> !Matches(before[j], name, exported);
        assert symbols[i] == before[i];
        assert forall j :: 0 <= j < i ==> symbols[j] == before[j];
      } else {
        assert forall j :: 0 <= j < n ==> symbols[j] == before[j];
        assert Matches(symbols[n], name, exported) ==> First(symbols, name, exported) == Some(symbols[n]);
      }
    }
  }

  lemma MatchesIs(s: Symbol, name: string, exported: bool)
    ensures Matches(s, name, exported) <==> Eligible(s) && s.name == name && (exported ==> s.exported)
  {
  }

  predicate Matches(s: Symbol, name: string, exported: bool) {
    && (s.kind.Function? || s.kind.Class? || s.kind.Variable? || s.kind.Export? || s.kind.Interface? || s.kind.TypeAlias?)
    && s.name == name && (exported ==> s.exported)
  }

  lemma DefinitionStep(symbols: seq<Symbol>, s: Symbol, name: string)
    ensures Definition(symbols + [s], name) ==
      if Eligible(s) && s.name == name
         && (Definition(symbols, name).None? || (!Definition(symbols, name).value.exported && s.exported))
      then Some(s) else Definition(symbols, name)
  {
    FirstStep(symbols, s, name, true);
    FirstStep(symbols, s, name, false);
    FirstIs(symbols, name, true);
    FirstIs(symbols, name, false);
    forall t
      ensures Matches(t, name, true) <==> Eligible(t) && t.name == name && t.exported
      ensures Matches(t, name, false) <==> Eligible(t) && t.name == name
    {
      MatchesIs(t, name, true);
      MatchesIs(t, name, false);
    }
    hide First, Eligible, Matches;
  }

  // ----- filling the maps

  // The symbols of one file, added to those of the files before it.
  method AddSymbols(table: map<string, Symbol>, ghost before: seq<Symbol>, symbols: seq<Symbol>)
    returns (r: map<string, Symbol>)
    requires Defines(table, before)
    ensures Defines(r, before + symbols)
  {
    hide Definition, Eligible;
    r := table;
    assert before + symbols[..0] == before;
    for i := 0 to |symbols|
      invariant Defines(r, before + symbols[..i])
    {
      var sym := symbols[i];
      ghost var so := before + symbols[..i];
      assert before + symbols[..i + 1] == so + [sym];
      forall name: string
        ensures Definition(so + [sym], name) ==
          if Eligible(sym) && sym.name == name
             && (Definition(so, name).None? || (!Definition(so, name).value.exported && sym.exported))
          then Some(sym) else Definition(so, name)
      {
        DefinitionStep(so, sym, name);
      }
      if Eligible(sym) {
        if sym.name !in r || (!r[sym.name].exported && sym.exported) {
          r := r[sym.name := sym];
        }
      }
    }
    assert symbols[..|symbols|] == symbols;
  }

  // The reverse map while the imports of one more file are added.
  ghost predicate Adding(graph: map<string, seq<string>>, files: Files, path: string, imports: seq<ImportEdge>) {
    forall d: string :: ListAt(graph, d) == Importers(files, d) + if d in Targets(imports) then [path] else []
  }

  // The imports of one file: its own targets, and its place in the lists of the files it imports.
  method AddImports(graph: map<string, seq<string>>, ghost files: Files, path: string, imports: seq<ImportEdge>)
    returns (deps: seq<string>, r: map<string, seq<string>>)
    requires Backward(graph, files) && !HasPath(files, path)
    ensures deps == Unique(Targets(imports))
    ensures Adding(r, files, path, imports)
  {
    hide Importers, Targets, Unique;
    deps, r := [], graph;
    NoTargets();
    assert imports[..0] == [];
    for i := 0 to |imports|
      invariant deps == Unique(Targets(imports[..i]))
      invariant Adding(r, files, path, imports[..i])
    {
      var imp := imports[i];
      TargetsStep(imports, i);
      if imp.toFile == "" {
        assert Targets(imports[..i]) + [] == Targets(imports[..i]);
        continue;
      }
      UniqueStep(Targets(imports[..i]), imp.toFile);
      if imp.toFile !in deps {
        deps := deps + [imp.toFile];
      }
      AddingStep(r, files, path, imports, i);
      hide Adding;
      var rev := ListAt(r, imp.toFile);
      if path !in rev {
        rev := rev + [path];
      }
      r := r[imp.toFile := rev];
    }
    assert imports[..|imports|] == imports;
  }

  // One more import that resolves: the importing file joins the list of the imported one.
  lemma AddingStep(graph: map<string, seq<string>>, files: Files, path: string, imports: seq<ImportEdge>, i: nat)
    requires i < |imports| && imports[i].toFile != "" && !HasPath(files, path)
    requires Adding(graph, files, path, imports[..i])
    ensures var d := imports[i].toFile; var rev := ListAt(graph, d);
      Adding(graph[d := if path in rev then rev else rev + [path]], files, path, imports[..i + 1])
  {
    hide Importers, Targets;
    var d := imports[i].toFile;
    TargetsStep(imports, i);
    ImportersAre(files, d, path);
    AppendOnce(Importers(files, d), d in Targets(imports[..i]), path);
  }

  lemma NoTargets()
    ensures Targets([]) == [] && Unique([]) == []
  {
  }

  lemma AppendOnce(list: seq<string>, there: bool, path: string)
    requires path !in list
    ensures var now := list + if there then [path] else [];
      list + [path] == if path in now then now else now + [path]
  {
  }

  // ----- the indexer

  class CodebaseIndexer {
    // What the path library answers: which paths are absolute, and what others are below the root.
    const isAbsolute: string -> bool
    const resolve: string -> string

    var indexed: bool
    var files: Files
    var symbols: map<string, Symbol>
    var importGraph: map<string, seq<string>>
    var reverseImportGraph: map<string, seq<string>>

    // The derived maps agree with the files.
    ghost predicate Valid()
      reads this
    {
      && (!indexed ==> files == [])
      && Distinct(files)
      && Defines(symbols, Flat(files))
      && Forward(importGraph, files)
      && Backward(reverseImportGraph, files)
    }

    constructor (isAbsolute: string -> bool, resolve: string -> string)
      ensures this.isAbsolute == isAbsolute && this.resolve == resolve
      ensures Valid() && !indexed && files == []
    {
      this.isAbsolute, this.resolve := isAbsolute, resolve;
      indexed, files, symbols, importGraph, reverseImportGraph := false, [], map[], map[], map[];
    }

    function Absolute(filePath: string): (path: string)
      ensures isAbsolute(filePath) ==> path == filePath
      ensures !isAbsolute(filePath) ==> path == resolve(filePath)
    {
      if isAbsolute(filePath) then filePath else resolve(filePath)
    }

    method RebuildDerivedMaps()
      requires indexed && Distinct(files)
      modifies this`symbols, this`importGraph, this`reverseImportGraph
      ensures Valid()
    {
      var table: map<string, Symbol> := map[];
      var forward: map<string, seq<string>> := map[];
      var backward: map<string, seq<string>> := map[];
      NothingYet();
      assert files[..0] == [];
      for i := 0 to |files|
        invariant Defines(table, Flat(files[..i]))
        invariant Forward(forward, files[..i])
        invariant Backward(backward, files[..i])
      {
        hide Flat, Definition, Importers, Targets, Unique;
        var path, file := files[i].path, files[i].file;
        FlatStep(files, i);
        FreshPath(files, i);
        table := AddSymbols(table, Flat(files[..i]), file.symbols);
        var deps;
        deps, backward := AddImports(backward, files[..i], path, file.imports);
        BackwardStep(backward, files, i);
        ForwardStep(forward, files, i);
        forward := forward[path := deps];
      }
      assert files[..|files|] == files;
      symbols, importGraph, reverseImportGraph := table, forward, backward;
    }

    /** A full index of what the walk finds. */
    method IndexAll(disk: Disk)
      modifies this
      ensures indexed && Valid()
      ensures IsFullIndex(files, disk)
    {
      indexed, files := true, [];
      var count, i := 0, 0;
      while i < |disk.walk|
        invariant 0 <= i <= |disk.walk| && indexed
        invariant files == Collected(disk, i) && Distinct(files) && count == Parses(disk, i) <= 5000
      {
        if count >= MAX_FILES {
          break;
        }
        var file := ParseFile(disk, disk.walk[i]);
        if file.Some? {
          PutKeepsDistinct(files, disk.walk[i], file.value);
          files := Put(files, disk.walk[i], file.value);
          count := count + 1;
        }
        i := i + 1;
      }
      RebuildDerivedMaps();
    }

    /** Brings the index up to date; without one it is built from nothing. */
    method IndexChanged(disk: Disk)
      requires Valid()
      modifies this
      ensures indexed && Valid()
      ensures old(indexed) ==> files == Refreshed(old(files), disk)
      ensures !old(indexed) ==> IsFullIndex(files, disk)
    {
      if !indexed {
        IndexAll(disk);
        return;
      }
      var changed := Absorb(disk);
      var dropped := Drop(disk.walk);
      hide Distinct, Defines, Forward, Backward;
      if changed || dropped {
        RebuildDerivedMaps();
      }
    }

    // Re-parses what is new or has a new hash.
    method Absorb(disk: Disk) returns (changed: bool)
      requires Distinct(files)
      modifies this`files
      ensures files == Absorbed(old(files), disk, |disk.walk|) && Distinct(files)
      ensures changed <==> files != old(files)
    {
      changed := false;
      for i := 0 to |disk.walk|
        invariant files == Absorbed(old(files), disk, i) && Distinct(files)
        invariant changed <==> files != old(files)
      {
        hide Lookup, Put;
        var f := disk.walk[i];
        if f !in disk.hashes {
          continue;
        }
        var existing := Lookup(files, f);
        if existing.Some? && existing.value.contentHash == disk.hashes[f] {
          continue;
        }
        var file := ParseFile(disk, f);
        if file.None? {
          continue;
        }
        PutKeepsDistinct(files, f, file.value);
        RenewalShows(old(files), disk, i);
        files := Put(files, f, file.value);
        changed := true;
      }
    }

    // Deletes the entries the walk did not see.
    method Drop(seen: seq<string>) returns (changed: bool)
      requires Distinct(files)
      modifies this`files
      ensures files == Kept(old(files), seen) && Distinct(files)
      ensures changed <==> files != old(files)
    {
      changed := false;
      var keys := files;
      DropEnds(keys, seen);
      hide Kept, Dropping, Without, Distinct;
      for i := 0 to |keys|
        invariant files == Dropping(keys, seen, i)
        invariant !changed ==> files == keys
        invariant changed ==> exists j :: 0 <= j < i && keys[j].path !in seen
      {
        DropStep(keys, seen, i);
        if keys[i].path !in seen {
          files := Without(files, keys[i].path);
          changed := true;
        }
      }
      KeptKeepsDistinct(keys, seen);
      if changed {
        UnseenIsDropped(keys, seen);
      }
    }

    /** Indexes one file; the answer is its entry, or None when it cannot be read or parsed. */
    method IndexFile(filePath: string, disk: Disk) returns (r: Option<FileIndex>)
      requires Valid()
      modifies this
      ensures indexed && Valid() && r == ParseFile(disk, Absolute(filePath))
      ensures files == if r.Some? then Put(old(files), Absolute(filePath), r.value) else old(files)
    {
      var path := Absolute(filePath);
      NothingYet();
      hide Defines, Forward, Backward, Distinct, Put, Flat;
      if !indexed {
        indexed, files, symbols, importGraph, reverseImportGraph := true, [], map[], map[], map[];
      }
      r := ParseFile(disk, path);
      if r.None? {
        return;
      }
      PutKeepsDistinct(files, path, r.value);
      files := Put(files, path, r.value);
      RebuildDerivedMaps();
    }

    method GetDependents(filePath: string) returns (r: seq<string>)
      requires Valid()
      ensures NoDuplicates(r)
      ensures forall f :: f in r <==> indexed && Imports(files, f, Absolute(filePath))
      ensures InOrderOf(r, PathsOf(files))
    {
      if !indexed {
        return [];
      }
      var path := Absolute(filePath);
      r := ListAt(reverseImportGraph, path);
      hide Defines, Forward, Importers, Targets, Flat, InOrderOf, PathsOf;
      ImportersOnce(files, path);
      ImportersInOrder(files, path);
      forall f
        ensures f in r <==> Imports(files, f, path)
      {
        ImportersAre(files, path, f);
      }
    }

    method GetDependencies(filePath: string) returns (r: seq<string>)
      requires Valid()
      ensures NoDuplicates(r)
      ensures forall d :: d in r <==> indexed && Imports(files, Absolute(filePath), d)
      ensures forall i :: indexed && 0 <= i < |files| && files[i].path == Absolute(filePath) ==>
        InOrderOf(r, Targets(files[i].file.imports))
    {
      if !indexed {
        return [];
      }
      var path := Absolute(filePath);
      r := ListAt(importGraph, path);
      hide Defines, Backward, Importers, Targets, Unique, Flat, InOrderOf;
      ForwardIs(importGraph, files, path);
      forall i | 0 <= i < |files| && files[i].path == path
        ensures InOrderOf(r, Targets(files[i].file.imports))
      {
        UniqueInOrder(Targets(files[i].file.imports));
      }
    }
  }

  lemma NothingYet()
    ensures Distinct([]) && Defines(map[], Flat([])) && Forward(map[], []) && Backward(map[], [])
  {
  }

  lemma FreshPath(files: Files, i: nat)
    requires Distinct(files) && i < |files|
    ensures !HasPath(files[..i], files[i].path)
  {
  }

  lemma BackwardStep(graph: map<string, seq<string>>, files: Files, i: nat)
    requires i < |files| && Adding(graph, files[..i], files[i].path, files[i].file.imports)
    ensures Backward(graph, files[..i + 1])
  {
    hide Importers, Targets;
    forall d: string
      ensures ListAt(graph, d) == Importers(files[..i + 1], d)
    {
      ImportersStep(files, i, d);
    }
  }

  lemma ForwardStep(graph: map<string, seq<string>>, files: Files, i: nat)
    requires i < |files| && Distinct(files) && Forward(graph, files[..i])
    ensures Forward(graph[files[i].path := Unique(Targets(files[i].file.imports))], files[..i + 1])
  {
    hide Unique, Targets;
    var before, after := files[..i], files[..i + 1];
    assert after == before + [files[i]];
    forall p
      ensures HasPath(after, p) <==> HasPath(before, p) || p == files[i].path
    {
      if p == files[i].path {
        assert after[i].path == p;
      } else if j :| 0 <= j < |before| && before[j].path == p {
        assert after[j].path == p;
      }
    }
  }

  function Without(files: Files, p: string): Files {
    var i := Position(files, p);
    if i < |files| then files[..i] + files[i + 1..] else files
  }

  lemma KeptStep(files: Files, seen: seq<string>, i: nat)
    requires i < |files|
    ensures Kept(files[..i + 1], seen) == Kept(files[..i], seen) + if files[i].path in seen then [files[i]] else []
  {
    assert files[..i + 1][..i] == files[..i];
  }

  lemma {:induction false} KeptAre(files: Files, seen: seq<string>, e: Entry)
    ensures e in Kept(files, seen) <==> e in files && e.path in seen
  {
    if files != [] {
      KeptAre(files[..|files| - 1], seen, e);
      assert files == files[..|files| - 1] + [files[|files| - 1]];
    }
  }

  lemma {:induction false} KeptKeepsDistinct(files: Files, seen: seq<string>)
    requires Distinct(files)
    ensures Distinct(Kept(files, seen))
  {
    if files != [] {
      var n := |files| - 1;
      KeptKeepsDistinct(files[..n], seen);
      forall i | 0 <= i < |Kept(files[..n], seen)|
        ensures Kept(files[..n], seen)[i].path != files[n].path
      {
        KeptAre(files[..n], seen, Kept(files[..n], seen)[i]);
      }
    }
  }

  lemma RemoveAt(keys: Files, seen: seq<string>, i: nat)
    requires Distinct(keys) && i < |keys|
    ensures Without(Kept(keys[..i], seen) + keys[i..], keys[i].path) == Kept(keys[..i], seen) + keys[i + 1..]
  {
    var kept := Kept(keys[..i], seen);
    var all := kept + keys[i..];
    forall j | 0 <= j < |kept|
      ensures all[j].path != keys[i].path
    {
      assert all[j] == kept[j];
      KeptAre(keys[..i], seen, kept[j]);
    }
    hide Kept;
    assert all[|kept|] == keys[i];
    assert Position(all, keys[i].path) == |kept|;
    assert all[|kept| + 1..] == keys[i + 1..];
  }

  // The entries when the first i have been decided on.
  function Dropping(keys: Files, seen: seq<string>, i: nat): Files
    requires i <= |keys|
  {
    Kept(keys[..i], seen) + keys[i..]
  }

  lemma DropEnds(keys: Files, seen: seq<string>)
    ensures Dropping(keys, seen, 0) == keys && Dropping(keys, seen, |keys|) == Kept(keys, seen)
  {
    assert keys[..0] == [] && keys[..|keys|] == keys;
  }

  lemma DropStep(keys: Files, seen: seq<string>, i: nat)
    requires Distinct(keys) && i < |keys|
    ensures Dropping(keys, seen, i + 1) ==
      if keys[i].path in seen then Dropping(keys, seen, i) else Without(Dropping(keys, seen, i), keys[i].path)
  {
    KeptStep(keys, seen, i);
    hide Kept, Without, Distinct;
    var kept := Kept(keys[..i], seen);
    if keys[i].path in seen {
      assert keys[i..] == [keys[i]] + keys[i + 1..];
      assert kept + [keys[i]] + keys[i + 1..] == kept + keys[i..];
    } else {
      RemoveAt(keys, seen, i);
      assert kept + [] == kept;
    }
  }

  lemma ForwardIs(graph: map<string, seq<string>>, files: Files, p: string)
    requires Distinct(files) && Forward(graph, files)
    ensures NoDuplicates(ListAt(graph, p))
    ensures forall d :: d in ListAt(graph, p) <==> Imports(files, p, d)
  {
    hide Targets, Unique;
    if i :| 0 <= i < |files| && files[i].path == p {
      UniqueIs(Targets(files[i].file.imports));
    }
  }

  // ----- the theorems

  /**
   The two graphs and a plain scan of the imports agree: an edge from f to d is in the one exactly
   when it is in the other, and exactly when some import of f resolves to d.
   */
  lemma GraphsAgree(forward: map<string, seq<string>>, backward: map<string, seq<string>>, files: Files, f: string, d: string)
    requires Distinct(files) && Forward(forward, files) && Backward(backward, files)
    ensures d in ListAt(forward, f) <==> f in ListAt(backward, d)
    ensures d in ListAt(forward, f) <==>
      (d != "" && Lookup(files, f).Some?
       && exists i :: 0 <= i < |Lookup(files, f).value.imports| && Lookup(files, f).value.imports[i].toFile == d)
    ensures NoDuplicates(ListAt(forward, f)) && NoDuplicates(ListAt(backward, d))
  {
    ForwardIs(forward, files, f);
    ImportersAre(files, d, f);
    ImportersOnce(files, d);
    hide Forward, Importers, NoDuplicates, Targets;
    ImportsIs(files, f, d);
    if Lookup(files, f).Some? {
      TargetsAre(Lookup(files, f).value.imports, d);
    }
  }

  lemma ImportsIs(files: Files, f: string, d: string)
    requires Distinct(files)
    ensures Imports(files, f, d) <==> Lookup(files, f).Some? && d in Targets(Lookup(files, f).value.imports)
  {
    hide Targets;
    if i :| 0 <= i < |files| && files[i].path == f && d in Targets(files[i].file.imports) {
      PositionIs(files, i);
    }
  }

  // The cap is not reached by a walk that is itself capped.
  lemma {:induction false} ParsesAtMost(disk: Disk, n: nat)
    requires n <= |disk.walk|
    ensures Parses(disk, n) <= n
  {
    if n > 0 {
      ParsesAtMost(disk, n - 1);
    }
  }

  lemma {:induction false} CollectedHas(disk: Disk, n: nat, p: string)
    requires n <= |disk.walk|
    ensures Distinct(Collected(disk, n))
    ensures Lookup(Collected(disk, n), p) == if p in disk.walk[..n] then ParseFile(disk, p) else None
  {
    if n > 0 {
      CollectedHas(disk, n - 1, p);
      var f := disk.walk[n - 1];
      assert disk.walk[..n] == disk.walk[..n - 1] + [f];
      if ParseFile(disk, f).Some? {
        PutKeepsDistinct(Collected(disk, n - 1), f, ParseFile(disk, f).value);
        LookupPut(Collected(disk, n - 1), f, ParseFile(disk, f).value, p);
      }
    }
    hide Put, Lookup, Distinct, ParseFile;
  }

  /** A full index within the limit holds exactly the files that were walked, read and parsed. */
  lemma FullIndexMirrorsDisk(files: Files, disk: Disk, p: string)
    requires IsFullIndex(files, disk) && |disk.walk| <= 5000
    ensures Lookup(files, p) == if p in disk.walk then ParseFile(disk, p) else None
  {
    var n: nat :| n <= |disk.walk| && files == Collected(disk, n) && (n < |disk.walk| ==> Parses(disk, n) == 5000);
    ParsesAtMost(disk, n);
    CollectedHas(disk, n, p);
    hide Collected, Lookup, ParseFile, Parses;
    assert disk.walk[..|disk.walk|] == disk.walk;
  }

  // ----- the order of the entries

  function PathsOf(files: Files): seq<string> {
    seq(|files|, i requires 0 <= i < |files| => files[i].path)
  }

  // A new path comes last, and any other stays in its place.
  lemma PathsPut(files: Files, p: string, file: FileIndex)
    ensures PathsOf(Put(files, p, file)) == if p in PathsOf(files) then PathsOf(files) else PathsOf(files) + [p]
  {
    var i := Position(files, p);
    if i < |files| {
      assert PathsOf(files)[i] == p;
    }
  }

  // The first place of a text in a list.
  function FirstAt(xs: seq<string>, x: string): (i: nat)
    requires x in xs
    ensures i < |xs| && xs[i] == x && forall j :: 0 <= j < i ==> xs[j] != x
  {
    if xs[0] == x then 0 else 1 + FirstAt(xs[1..], x)
  }

  lemma FirstAtOf(xs: seq<string>, more: seq<string>, x: string)
    requires x in xs
    ensures x in xs + more && FirstAt(xs + more, x) == FirstAt(xs, x)
  {
    var i, j := FirstAt(xs, x), FirstAt(xs + more, x);
    assert (xs + more)[i] == x;
    hide FirstAt;
    assert forall k :: 0 <= k < i ==> (xs + more)[k] == xs[k];
  }

  ghost predicate InOrderOf(u: seq<string>, xs: seq<string>) {
    && (forall x :: x in u ==> x in xs)
    && forall i, j :: 0 <= i < j < |u| ==> FirstAt(xs, u[i]) < FirstAt(xs, u[j])
  }

  lemma InOrderOfMore(u: seq<string>, xs: seq<string>, more: seq<string>)
    requires InOrderOf(u, xs)
    ensures InOrderOf(u, xs + more)
  {
    forall x | x in u
      ensures x in xs + more && FirstAt(xs + more, x) == FirstAt(xs, x)
    {
      FirstAtOf(xs, more, x);
    }
    hide FirstAt;
  }

  lemma InOrderSnoc(u: seq<string>, xs: seq<string>, x: string)
    requires InOrderOf(u, xs) && x !in xs
    ensures InOrderOf(u + [x], xs + [x])
  {
    InOrderOfMore(u, xs, [x]);
    forall y | y in u
      ensures FirstAt(xs + [x], y) < |xs|
    {
      FirstAtOf(xs, [x], y);
    }
    assert (xs + [x])[|xs|] == x && FirstAt(xs + [x], x) == |xs|;
    hide FirstAt;
    assert forall i :: 0 <= i < |u| ==> u[i] in u;
  }

  /** First occurrences keep their order. */
  lemma {:induction false} UniqueInOrder(xs: seq<string>)
    ensures InOrderOf(Unique(xs), xs)
  {
    if xs != [] {
      var n := |xs| - 1;
      var before, x := xs[..n], xs[n];
      UniqueInOrder(before);
      UniqueIs(before);
      assert xs == before + [x];
      hide InOrderOf;
      if x !in before {
        InOrderSnoc(Unique(before), before, x);
      } else {
        InOrderOfMore(Unique(before), before, [x]);
      }
    }
  }

  // The importers of a file are listed in the order of the index.
  lemma {:induction false} ImportersInOrder(files: Files, d: string)
    requires Distinct(files)
    ensures InOrderOf(Importers(files, d), PathsOf(files))
  {
    if files != [] {
      var n := |files| - 1;
      var before, p := files[..n], files[n].path;
      ImportersInOrder(before, d);
      assert PathsOf(files) == PathsOf(before) + [p];
      assert p !in PathsOf(before);
      hide InOrderOf, Targets, PathsOf;
      InOrderSnoc(Importers(before, d), PathsOf(before), p);
      InOrderOfMore(Importers(before, d), PathsOf(before), [p]);
      assert Importers(before, d) + [] == Importers(before, d);
    }
  }

  // The walked paths that read and parse, with repetitions.
  function Parsable(disk: Disk, n: nat): seq<string>
    requires n <= |disk.walk|
  {
    if n == 0 then [] else
      Parsable(disk, n - 1) + if ParseFile(disk, disk.walk[n - 1]).Some? then [disk.walk[n - 1]] else []
  }

  /** A full index lists its files in the order in which the walk first comes to them. */
  lemma {:induction false} CollectedInOrder(disk: Disk, n: nat)
    requires n <= |disk.walk|
    ensures PathsOf(Collected(disk, n)) == Unique(Parsable(disk, n))
    ensures InOrderOf(PathsOf(Collected(disk, n)), Parsable(disk, n))
  {
    UniqueInOrder(Parsable(disk, n));
    hide InOrderOf;
    if n > 0 {
      CollectedInOrder(disk, n - 1);
      hide ParseFile, Put, Unique, PathsOf;
      var f := disk.walk[n - 1];
      if ParseFile(disk, f).Some? {
        PathsPut(Collected(disk, n - 1), f, ParseFile(disk, f).value);
        UniqueStep(Parsable(disk, n - 1), f);
      } else {
        assert Parsable(disk, n - 1) + [] == Parsable(disk, n - 1);
      }
    }
  }

  lemma FullIndexInWalkOrder(files: Files, disk: Disk) returns (n: nat)
    requires IsFullIndex(files, disk)
    ensures n <= |disk.walk| && InOrderOf(PathsOf(files), Parsable(disk, n))
    ensures |Parsable(disk, n)| <= 5000 && (n < |disk.walk| ==> |Parsable(disk, n)| == 5000)
  {
    n :| n <= |disk.walk| && files == Collected(disk, n) && Parses(disk, n) <= 5000 && (n < |disk.walk| ==> Parses(disk, n) == 5000);
    CollectedInOrder(disk, n);
    ParsableCount(disk, n);
    hide Collected, InOrderOf, Parsable, Parses;
  }

  lemma {:induction false} ParsableCount(disk: Disk, n: nat)
    requires n <= |disk.walk|
    ensures |Parsable(disk, n)| == Parses(disk, n)
  {
    if n > 0 {
      ParsableCount(disk, n - 1);
      hide ParseFile;
    }
  }

  // The paths that were seen, in their order.
  function Only(paths: seq<string>, seen: seq<string>): seq<string> {
    if paths == [] then [] else
      var p := paths[|paths| - 1];
      Only(paths[..|paths| - 1], seen) + if p in seen then [p] else []
  }

  lemma {:induction false} PathsKept(files: Files, seen: seq<string>)
    ensures PathsOf(Kept(files, seen)) == Only(PathsOf(files), seen)
  {
    if files != [] {
      var n := |files| - 1;
      PathsKept(files[..n], seen);
      assert PathsOf(files)[..n] == PathsOf(files[..n]) && PathsOf(files)[n] == files[n].path;
      KeptStep(files, seen, n);
      assert files[..n + 1] == files;
    }
  }

  // Adding paths that are not there yet, one by one.
  function Adjoined(paths: seq<string>, more: seq<string>): seq<string> {
    if more == [] then paths else
      var before, p := Adjoined(paths, more[..|more| - 1]), more[|more| - 1];
      if p in before then before else before + [p]
  }

  lemma AdjoinedSnoc(paths: seq<string>, more: seq<string>, p: string)
    ensures Adjoined(paths, more + [p]) == if p in Adjoined(paths, more) then Adjoined(paths, more) else Adjoined(paths, more) + [p]
  {
    assert (more + [p])[..|more|] == more;
  }

  lemma PathsHave(files: Files, p: string)
    ensures p in PathsOf(files) <==> Lookup(files, p).Some?
  {
    var i := Position(files, p);
    if i < |files| {
      assert PathsOf(files)[i] == p;
    }
  }

  lemma {:induction false} PathsAbsorbed(files: Files, disk: Disk, n: nat)
    requires n <= |disk.walk|
    ensures PathsOf(Absorbed(files, disk, n)) == Adjoined(PathsOf(files), Parsable(disk, n))
  {
    hide ParseFile, Put, PathsOf, Lookup, Adjoined;
    if n > 0 {
      PathsAbsorbed(files, disk, n - 1);
      var before, f := Absorbed(files, disk, n - 1), disk.walk[n - 1];
      AdjoinedSnoc(PathsOf(files), Parsable(disk, n - 1), f);
      PathsHave(before, f);
      if Renewed(before, disk, f).Some? {
        PathsPut(before, f, Renewed(before, disk, f).value);
      }
      assert Parsable(disk, n - 1) + [] == Parsable(disk, n - 1);
    } else {
      NothingAdjoined(PathsOf(files));
    }
  }

  lemma NothingAdjoined(paths: seq<string>)
    ensures Adjoined(paths, []) == paths
  {
  }

  /** An update keeps the order of the files it keeps, and new ones follow in the order of the walk. */
  lemma RefreshKeepsOrder(files: Files, disk: Disk)
    ensures PathsOf(Refreshed(files, disk)) == Only(Adjoined(PathsOf(files), Parsable(disk, |disk.walk|)), disk.walk)
  {
    PathsAbsorbed(files, disk, |disk.walk|);
    PathsKept(Absorbed(files, disk, |disk.walk|), disk.walk);
    hide Absorbed, Kept, PathsOf, Only, Adjoined;
  }

  // What an update leaves for a walked path.
  function Updated(existing: Option<FileIndex>, parsed: Option<FileIndex>): Option<FileIndex> {
    if parsed.None? || (existing.Some? && existing.value.contentHash == parsed.value.contentHash) then existing
    else parsed
  }

  lemma {:induction false} AbsorbedHas(files: Files, disk: Disk, n: nat, p: string)
    requires n <= |disk.walk| && Distinct(files)
    ensures Distinct(Absorbed(files, disk, n))
    ensures Lookup(Absorbed(files, disk, n), p) ==
      if p in disk.walk[..n] then Updated(Lookup(files, p), ParseFile(disk, p)) else Lookup(files, p)
  {
    if n > 0 {
      AbsorbedHas(files, disk, n - 1, p);
      var before, f := Absorbed(files, disk, n - 1), disk.walk[n - 1];
      assert disk.walk[..n] == disk.walk[..n - 1] + [f];
      if Renewed(before, disk, f).Some? {
        PutKeepsDistinct(before, f, Renewed(before, disk, f).value);
        LookupPut(before, f, Renewed(before, disk, f).value, p);
      }
    }
    hide Put, Lookup, Distinct, ParseFile;
  }

  lemma UnseenIsDropped(files: Files, seen: seq<string>)
    requires exists j :: 0 <= j < |files| && files[j].path !in seen
    ensures Kept(files, seen) != files
  {
    var j :| 0 <= j < |files| && files[j].path !in seen;
    KeptAre(files, seen, files[j]);
    assert files[j] in files;
  }

  // Where a walked path is renewed, the entry is another than the one before the update.
  lemma RenewalShows(files: Files, disk: Disk, i: nat)
    requires i < |disk.walk| && Distinct(files)
    requires Renewed(Absorbed(files, disk, i), disk, disk.walk[i]).Some?
    ensures Absorbed(files, disk, i + 1) != files
  {
    var p := disk.walk[i];
    AbsorbedHas(files, disk, i, p);
    AbsorbedHas(files, disk, i + 1, p);
    assert disk.walk[..i + 1] == disk.walk[..i] + [p];
    hide Absorbed, Lookup, Distinct, ParseFile;
  }

  lemma KeptHas(files: Files, seen: seq<string>, p: string)
    requires Distinct(files)
    ensures Lookup(Kept(files, seen), p) == if p in seen then Lookup(files, p) else None
  {
    KeptKeepsDistinct(files, seen);
    var kept := Kept(files, seen);
    var i, j := Position(files, p), Position(kept, p);
    if i < |files| {
      KeptAre(files, seen, files[i]);
    }
    if j < |kept| {
      KeptAre(files, seen, kept[j]);
    }
    hide Kept;
    if i < |files| && p in seen {
      var k :| 0 <= k < |kept| && kept[k] == files[i];
      PositionIs(kept, k);
    }
    if j < |kept| {
      var k :| 0 <= k < |files| && files[k] == kept[j];
      PositionIs(files, k);
    }
  }

  /**
   After an update the index holds walked paths only. A path that reads and parses has its entry
   from the disk, unless the hash is the one it had, and then its old entry; one that does not keeps
   the entry it had.
   */
  lemma RefreshMirrorsDisk(files: Files, disk: Disk, p: string)
    requires Distinct(files)
    ensures var after := Lookup(Refreshed(files, disk), p);
      if p !in disk.walk then after == None
      else if ParseFile(disk, p).None? then after == Lookup(files, p)
      else if Lookup(files, p).Some? && Lookup(files, p).value.contentHash == disk.hashes[p] then after == Lookup(files, p)
      else after == ParseFile(disk, p) && after.value.contentHash == disk.hashes[p]
  {
    AbsorbedHas(files, disk, |disk.walk|, p);
    KeptHas(Absorbed(files, disk, |disk.walk|), disk.walk, p);
    assert disk.walk[..|disk.walk|] == disk.walk;
    hide Absorbed, Kept, Lookup, Distinct;
  }

  /** A second update of the same disk changes nothing. */
  lemma RefreshTwice(files: Files, disk: Disk)
    requires Distinct(files)
    ensures Refreshed(Refreshed(files, disk), disk) == Refreshed(files, disk)
  {
    var once := Refreshed(files, disk);
    AbsorbedHas(files, disk, |disk.walk|, "");
    KeptKeepsDistinct(Absorbed(files, disk, |disk.walk|), disk.walk);
    forall p | p in disk.walk
      ensures Renewed(once, disk, p).None?
    {
      RefreshMirrorsDisk(files, disk, p);
    }
    NothingRenewed(once, disk, |disk.walk|);
    forall e | e in once
      ensures e.path in disk.walk
    {
      KeptAre(Absorbed(files, disk, |disk.walk|), disk.walk, e);
    }
    AllKept(once, disk.walk);
    hide Absorbed, Kept, Renewed;
  }

  lemma {:induction false} NothingRenewed(files: Files, disk: Disk, n: nat)
    requires n <= |disk.walk| && forall p :: p in disk.walk ==> Renewed(files, disk, p).None?
    ensures Absorbed(files, disk, n) == files
  {
    hide Renewed;
    if n > 0 {
      NothingRenewed(files, disk, n - 1);
    }
  }

  lemma {:induction false} AllKept(files: Files, seen: seq<string>)
    requires forall e :: e in files ==> e.path in seen
    ensures Kept(files, seen) == files
  {
    hide Kept;
    if files != [] {
      var n := |files| - 1;
      assert files == files[..n] + [files[n]] && files[n] in files;
      assert forall e :: e in files[..n] ==> e in files;
      AllKept(files[..n], seen);
      KeptStep(files, seen, n);
      assert files[..n + 1] == files;
    } else {
      NothingKept(seen);
    }
  }

  lemma NothingKept(seen: seq<string>)
    ensures Kept([], seen) == []
  {
  }
}
