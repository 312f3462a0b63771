/** The file and folder resolver behind `@file` and `@folder` references: it
    turns a path into a reference when the path resolves to an entry of the
    right type, and lists the direct children of each workspace root whose
    name contains a prefix, ignoring case. */
module FileExplorer {
  import opened Wrappers
  import opened Text
  import opened AtSymbol

  /** The platform functions the resolver calls, which are not part of this
      model: `URI.parse` (`None` where it throws), `uri.toString(skipEncoding)`,
      `basename` and the label service's relative label. */
  datatype Platform = Platform(
    parse: string -> Option<Uri>,
    render: (Uri, bool) -> string,
    basename: Uri -> string,
    relativeLabel: Uri -> string)

  /** A child entry as `fileService.resolve` lists it. */
  datatype ChildStat = ChildStat(resource: Uri, isDirectory: bool)

  /** A resolved entry; `children` is `None` when the entry lists none. */
  datatype Stat = Stat(isDirectory: bool, children: Option<seq<ChildStat>>)

  /** The workspace roots, in order, and what `fileService.resolve` returns
      for each resource; a resource outside `entries` makes resolve throw. */
  datatype Workspace = Workspace(folders: seq<Uri>, entries: map<Uri, Stat>)

  /** The reference kind of an entry. */
  function EntryKind(isDirectory: bool): (k: AtSymbolType)
    ensures k != Link
    ensures (k == Folder) == isDirectory
  {
    if isDirectory then Folder else File
  }

  /** The reference the resolver builds for a resource: its string form as
      the value, its base name as display name and title, and its relative
      label as description. */
  function ResourceContext(pf: Platform, kind: AtSymbolType, u: Uri): (c: AtSymbolContext)
    ensures c.kind == kind && c.value == pf.render(u, false)
    ensures c.displayName == pf.basename(u) && c.metadata.title == Some(c.displayName)
    ensures c.metadata.uri == Some(u) && c.metadata.description == Some(pf.relativeLabel(u))
  {
    AtSymbolContext(kind, pf.render(u, false), pf.basename(u),
      Metadata(Some(u), Some(pf.basename(u)), Some(pf.relativeLabel(u))))
  }

  /** `createFileContext` (`directory == false`) and `createFolderContext`
      (`directory == true`): a reference exactly when the path parses and
      resolves to an entry of the requested type. */
  function CreateEntryContext(pf: Platform, ws: Workspace, path: string, directory: bool): (r: Option<AtSymbolContext>)
    ensures r.Some? <==>
      (pf.parse(path).Some? && pf.parse(path).value in ws.entries &&
       ws.entries[pf.parse(path).value].isDirectory == directory)
    ensures r.Some? ==> r.value.kind == EntryKind(directory) && r.value.metadata.uri == pf.parse(path)
  {
    match pf.parse(path)
    case None => None
    case Some(u) =>
      if u in ws.entries && ws.entries[u].isDirectory == directory
      then Some(ResourceContext(pf, EntryKind(directory), u))
      else None
  }

  function CreateFileContext(pf: Platform, ws: Workspace, path: string): Option<AtSymbolContext> {
    CreateEntryContext(pf, ws, path, false)
  }

  function CreateFolderContext(pf: Platform, ws: Workspace, path: string): Option<AtSymbolContext> {
    CreateEntryContext(pf, ws, path, true)
  }

  /** A path never yields both a file and a folder reference, and a path that
      parses and resolves yields exactly one of them. */
  lemma FileOrFolder(pf: Platform, ws: Workspace, path: string)
    ensures !(CreateFileContext(pf, ws, path).Some? && CreateFolderContext(pf, ws, path).Some?)
    ensures pf.parse(path).Some? && pf.parse(path).value in ws.entries ==>
      CreateFileContext(pf, ws, path).Some? || CreateFolderContext(pf, ws, path).Some?
  {
  }

  // ---------------------------------------------------------------------------
  // Completions
  // ---------------------------------------------------------------------------

  /** The children `resolve` lists for a root; a root that fails to resolve,
      or lists no children, contributes none. */
  function ChildrenOf(ws: Workspace, root: Uri): seq<ChildStat> {
    if root in ws.entries && ws.entries[root].children.Some? then ws.entries[root].children.value else []
  }

  /** The filter of the completion loops: the right type, and the lower-cased
      base name contains the lower-cased prefix. */
  predicate Qualifies(pf: Platform, child: ChildStat, prefix: string, directory: bool) {
    child.isDirectory == directory && Includes(ToLower(pf.basename(child.resource)), ToLower(prefix))
  }

  /** The references for the qualifying children among `children`, in order. */
  function MatchingChildren(pf: Platform, children: seq<ChildStat>, prefix: string, directory: bool): (cs: seq<AtSymbolContext>)
    ensures |cs| <= |children|
  {
    if children == [] then []
    else
      var last := children[|children| - 1];
      MatchingChildren(pf, children[..|children| - 1], prefix, directory) +
      (if Qualifies(pf, last, prefix, directory) then [ResourceContext(pf, EntryKind(directory), last.resource)] else [])
  }

  /** The completions over `roots`: each root's matching children, root by root. */
  function Completions(pf: Platform, ws: Workspace, roots: seq<Uri>, prefix: string, directory: bool): seq<AtSymbolContext> {
    if roots == [] then []
    else
      Completions(pf, ws, roots[..|roots| - 1], prefix, directory) +
      MatchingChildren(pf, ChildrenOf(ws, roots[|roots| - 1]), prefix, directory)
  }

  /** The nested loop shared by `getFileCompletions` and `getFolderCompletions`. */
  method CollectCompletions(pf: Platform, ws: Workspace, prefix: string, directory: bool) returns (results: seq<AtSymbolContext>)
    ensures results == Completions(pf, ws, ws.folders, prefix, directory)
  {
    results := [];
    for i := 0 to |ws.folders|
      invariant results == Completions(pf, ws, ws.folders[..i], prefix, directory)
    {
      var root := ws.folders[i];
      assert ws.folders[..i + 1][..i] == ws.folders[..i];
      if root in ws.entries {
        var stat := ws.entries[root];
        if stat.children.Some? {
          results := AppendMatching(pf, stat.children.value, prefix, directory, results);
        }
      }
    }
    assert ws.folders[..|ws.folders|] == ws.folders;
  }

  /** The inner loop: each qualifying child of one root pushed onto `results`. */
  method AppendMatching(pf: Platform, children: seq<ChildStat>, prefix: string, directory: bool, before: seq<AtSymbolContext>)
    returns (results: seq<AtSymbolContext>)
    ensures results == before + MatchingChildren(pf, children, prefix, directory)
  {
    results := before;
    for j := 0 to |children|
      invariant results == before + MatchingChildren(pf, children[..j], prefix, directory)
    {
      var child := children[j];
      var name := pf.basename(child.resource);
      assert children[..j + 1][..j] == children[..j];
      if child.isDirectory == directory && Includes(ToLower(name), ToLower(prefix)) {
        results := results + [ResourceContext(pf, EntryKind(directory), child.resource)];
      }
    }
    assert children[..|children|] == children;
  }

  /** `getFileCompletions`. */
  method GetFileCompletions(pf: Platform, ws: Workspace, prefix: string) returns (results: seq<AtSymbolContext>)
    ensures results == Completions(pf, ws, ws.folders, prefix, false)
  {
    results := CollectCompletions(pf, ws, prefix, false);
  }

  /** `getFolderCompletions`. */
  method GetFolderCompletions(pf: Platform, ws: Workspace, prefix: string) returns (results: seq<AtSymbolContext>)
    ensures results == Completions(pf, ws, ws.folders, prefix, true)
  {
    results := CollectCompletions(pf, ws, prefix, true);
  }

  // ---------------------------------------------------------------------------
  // Properties of the completions
  // ---------------------------------------------------------------------------

  /** Soundness of one root's list: every reference comes from a qualifying child. */
  lemma {:induction false} MatchingChildrenSound(pf: Platform, children: seq<ChildStat>, prefix: string, directory: bool, c: AtSymbolContext)
    requires c in MatchingChildren(pf, children, prefix, directory)
    ensures exists child :: (child in children && Qualifies(pf, child, prefix, directory) &&
      c == ResourceContext(pf, EntryKind(directory), child.resource))
    decreases |children|
  {
    var init := children[..|children| - 1];
    var last := children[|children| - 1];
    if c in MatchingChildren(pf, init, prefix, directory) {
      MatchingChildrenSound(pf, init, prefix, directory, c);
      var child :| child in init && Qualifies(pf, child, prefix, directory) &&
        c == ResourceContext(pf, EntryKind(directory), child.resource);
      assert child in children;
    } else {
      assert last in children;
    }
  }

  /** Completeness of one root's list: every qualifying child is listed. */
  lemma {:induction false} MatchingChildrenComplete(pf: Platform, children: seq<ChildStat>, prefix: string, directory: bool, child: ChildStat)
    requires child in children && Qualifies(pf, child, prefix, directory)
    ensures ResourceContext(pf, EntryKind(directory), child.resource) in MatchingChildren(pf, children, prefix, directory)
    decreases |children|
  {
    var init := children[..|children| - 1];
    if child != children[|children| - 1] {
      assert child in init;
      MatchingChildrenComplete(pf, init, prefix, directory, child);
    }
  }

  /** Soundness: every completion is a reference of the requested type to a
      direct child of some root whose lower-cased base name contains the
      lower-cased prefix; its display name and title are that base name and
      its value the child's string form. */
  lemma {:induction false} CompletionsSound(pf: Platform, ws: Workspace, roots: seq<Uri>, prefix: string, directory: bool, c: AtSymbolContext)
    requires c in Completions(pf, ws, roots, prefix, directory)
    ensures exists root, child :: (root in roots && child in ChildrenOf(ws, root) &&
      Qualifies(pf, child, prefix, directory) && c == ResourceContext(pf, EntryKind(directory), child.resource))
    decreases |roots|
  {
    var init := roots[..|roots| - 1];
    var root := roots[|roots| - 1];
    if c in Completions(pf, ws, init, prefix, directory) {
      CompletionsSound(pf, ws, init, prefix, directory, c);
      var r, child :| r in init && child in ChildrenOf(ws, r) &&
        Qualifies(pf, child, prefix, directory) && c == ResourceContext(pf, EntryKind(directory), child.resource);
      assert r in roots;
    } else {
      MatchingChildrenSound(pf, ChildrenOf(ws, root), prefix, directory, c);
    }
  }

  /** Completeness: every qualifying child of every root that resolves is a completion. */
  lemma {:induction false} CompletionsComplete(pf: Platform, ws: Workspace, roots: seq<Uri>, prefix: string, directory: bool, root: Uri, child: ChildStat)
    requires root in roots && child in ChildrenOf(ws, root) && Qualifies(pf, child, prefix, directory)
    ensures ResourceContext(pf, EntryKind(directory), child.resource) in Completions(pf, ws, roots, prefix, directory)
    decreases |roots|
  {
    var init := roots[..|roots| - 1];
    if root == roots[|roots| - 1] {
      MatchingChildrenComplete(pf, ChildrenOf(ws, root), prefix, directory, child);
    } else {
      assert root in init;
      CompletionsComplete(pf, ws, init, prefix, directory, root, child);
    }
  }

  /** Order: the completions of a list of roots are those of its first part
      followed by those of the rest, so results come root by root. */
  lemma {:induction false} CompletionsAppend(pf: Platform, ws: Workspace, a: seq<Uri>, b: seq<Uri>, prefix: string, directory: bool)
    ensures Completions(pf, ws, a + b, prefix, directory) ==
      Completions(pf, ws, a, prefix, directory) + Completions(pf, ws, b, prefix, directory)
    decreases |b|
  {
    if b == [] {
      assert a + b == a;
    } else {
      var b' := b[..|b| - 1];
      var last := b[|b| - 1];
      var tail := MatchingChildren(pf, ChildrenOf(ws, last), prefix, directory);
      assert (a + b)[..|a + b| - 1] == a + b';
      assert (a + b)[|a + b| - 1] == last;
      assert Completions(pf, ws, a + b, prefix, directory) == Completions(pf, ws, a + b', prefix, directory) + tail;
      CompletionsAppend(pf, ws, a, b', prefix, directory);
      assert Completions(pf, ws, b, prefix, directory) == Completions(pf, ws, b', prefix, directory) + tail;
    }
  }

  /** A root that fails to resolve is skipped and the other roots' results
      are still returned. */
  lemma SkipFailingRoot(pf: Platform, ws: Workspace, a: seq<Uri>, root: Uri, b: seq<Uri>, prefix: string, directory: bool)
    requires root !in ws.entries
    ensures Completions(pf, ws, a + [root] + b, prefix, directory) == Completions(pf, ws, a + b, prefix, directory)
  {
    var lhs := Completions(pf, ws, a + [root], prefix, directory);
    CompletionsAppend(pf, ws, a + [root], b, prefix, directory);
    CompletionsAppend(pf, ws, a, [root], prefix, directory);
    CompletionsAppend(pf, ws, a, b, prefix, directory);
    FailingRootEmpty(pf, ws, root, prefix, directory);
    assert lhs == Completions(pf, ws, a, prefix, directory);
  }

  lemma FailingRootEmpty(pf: Platform, ws: Workspace, root: Uri, prefix: string, directory: bool)
    requires root !in ws.entries
    ensures Completions(pf, ws, [root], prefix, directory) == []
  {
    assert [root][..0] == [];
    assert ChildrenOf(ws, root) == [];
  }

  /** With an empty prefix, every child of the requested type qualifies. */
  lemma EmptyPrefixQualifies(pf: Platform, child: ChildStat, directory: bool)
    requires child.isDirectory == directory
    ensures Qualifies(pf, child, "", directory)
  {
    IncludesEmpty(ToLower(pf.basename(child.resource)));
  }

  /** Only entries of the requested type are listed: with the prefix fixed,
      no reference is both a file and a folder completion. */
  lemma {:induction false} CompletionsKind(pf: Platform, ws: Workspace, roots: seq<Uri>, prefix: string, directory: bool, c: AtSymbolContext)
    requires c in Completions(pf, ws, roots, prefix, directory)
    ensures c.kind == EntryKind(directory)
    ensures c.metadata.title == Some(c.displayName) && c.metadata.uri.Some?
    ensures c.displayName == pf.basename(c.metadata.uri.value)
    ensures c.value == pf.render(c.metadata.uri.value, false)
  {
    CompletionsSound(pf, ws, roots, prefix, directory, c);
    var root, child :| root in roots && child in ChildrenOf(ws, root) &&
      Qualifies(pf, child, prefix, directory) && c == ResourceContext(pf, EntryKind(directory), child.resource);
  }

  /** The filter lower-cases the prefix itself, so lower-casing it beforehand
      (as the reference service does) changes nothing. */
  lemma {:induction false} LoweredPrefix(pf: Platform, ws: Workspace, roots: seq<Uri>, prefix: string, directory: bool)
    ensures Completions(pf, ws, roots, ToLower(prefix), directory) == Completions(pf, ws, roots, prefix, directory)
    decreases |roots|
  {
    if roots != [] {
      LoweredPrefix(pf, ws, roots[..|roots| - 1], prefix, directory);
      MatchingChildrenLowered(pf, ChildrenOf(ws, roots[|roots| - 1]), prefix, directory);
    }
  }

  lemma {:induction false} MatchingChildrenLowered(pf: Platform, children: seq<ChildStat>, prefix: string, directory: bool)
    ensures MatchingChildren(pf, children, ToLower(prefix), directory) == MatchingChildren(pf, children, prefix, directory)
    decreases |children|
  {
    if children != [] {
      ToLowerIdempotent(prefix);
      MatchingChildrenLowered(pf, children[..|children| - 1], prefix, directory);
    }
  }
}
