/** The published registries, and the two ways to build one from a mirror on disk. */
module TemplateStore {
  import opened Common
  import opened Freshness
  import opened LocalMirror
  import opened Edge
  import opened FileTree
  import opened MirrorLayout
  import opened MirrorRead
  import opened OriginRuntime
  import opened Templates

  class TemplateStore {
    var origins: map<string, Registry>

    constructor ()
      ensures origins == map[]
    {
      origins := map[];
    }

    function Active(originId: string): Registry
      reads this
    {
      if originId in origins then origins[originId] else map[]
    }

    /** The incremental form: reads the changed files alone. The loops visit keys in any order. */
    method CompileTemplateUpdate(engine: Engine, originId: string, fs: FileSystem, root: Path, hash: string -> Digest,
                                 diff: OriginFreshnessDiff, ghost mirror: Mirror)
      returns (r: Result<Registry, RefreshError>)
      requires Holds(fs.tree, root, hash, mirror) && CanonicalKeys(diff.Changed())
      modifies fs`schedule
      ensures r.Ok? ==> UpdatedRegistry(engine, Active(originId), mirror, diff) == Some(r.value)
      ensures old(fs.schedule) == [] && diff.Changed() <= mirror.Keys ==>
        fs.schedule == [] && (r.Ok? <==> UpdatedRegistry(engine, Active(originId), mirror, diff).Some?)
    {
      var registry := Active(originId);
      ghost var active := registry;
      var removed := diff.removed;
      while removed != {}
        invariant removed <= diff.removed
        invariant registry == active - (diff.removed - removed)
      {
        var key :| key in removed;
        registry := registry - {key};
        removed := removed - {key};
      }
      assert diff.removed - removed == diff.removed;
      r := CompilePages(engine, fs, root, hash, registry, diff.Changed(), mirror);
    }

    method SetOriginRegistry(originId: string, registry: Registry)
      modifies this
      ensures origins == old(origins)[originId := registry]
    {
      origins := origins[originId := registry];
    }

    /** The simple form: walks the mirror and reads every file. */
    method LoadOriginTemplates(engine: Engine, originId: string, fs: FileSystem, root: Path, hash: string -> Digest, ghost mirror: Mirror)
      returns (ok: bool)
      requires WellFormed(fs.tree) && IsDir(fs.tree, root) && Holds(fs.tree, root, hash, mirror)
      modifies this, fs`schedule
      ensures ok ==> FullRegistry(engine, mirror).Some?
      ensures origins == if ok then old(origins)[originId := FullRegistry(engine, mirror).value] else old(origins)
      ensures old(fs.schedule) == [] && !IsFile(fs.tree, MetadataDir(root)) ==> (ok <==> FullRegistry(engine, mirror).Some?)
    {
      var files := MirrorFiles(fs, root, hash, mirror);
      if files.Err? {
        return false;
      }
      assert Prefix(files.value, |files.value|) == mirror.Keys;
      var registry := BuildPages(engine, fs, root, hash, files.value, mirror);
      if registry.Err? {
        return false;
      }
      origins := origins[originId := registry.value];
      return true;
    }
  }

  /** Each changed key in turn: recompiled, or dropped when it is no template any more. */
  method CompilePages(engine: Engine, fs: FileSystem, root: Path, hash: string -> Digest, base: Registry, changed: set<string>, ghost mirror: Mirror)
    returns (r: Result<Registry, RefreshError>)
    requires Holds(fs.tree, root, hash, mirror) && CanonicalKeys(changed)
    modifies fs`schedule
    ensures r.Ok? ==> NoneBroken(Judge(engine, mirror), changed) && r.value == (base - changed) + Pages(Judge(engine, mirror), changed)
    ensures old(fs.schedule) == [] && changed <= mirror.Keys ==> fs.schedule == [] && (r.Ok? <==> NoneBroken(Judge(engine, mirror), changed))
  {
    ghost var verdicts := Judge(engine, mirror);
    var registry := base;
    var todo := changed;
    while todo != {}
      invariant todo <= changed && fs.tree == old(fs.tree)
      invariant NoneBroken(verdicts, changed - todo)
      invariant registry == (base - (changed - todo)) + Pages(verdicts, changed - todo)
      invariant old(fs.schedule) == [] ==> fs.schedule == []
    {
      var key :| key in todo;
      ghost var done := changed - todo;
      r := CompilePage(engine, fs, root, hash, base, done, key, registry, mirror);
      if r.Err? {
        return;
      }
      todo := todo - {key};
      assert changed - todo == done + {key};
      registry := r.value;
    }
    assert changed - todo == changed;
    return Ok(registry);
  }

  method CompilePage(engine: Engine, fs: FileSystem, root: Path, hash: string -> Digest, ghost base: Registry, ghost done: set<string>,
                     key: string, registry: Registry, ghost mirror: Mirror)
    returns (r: Result<Registry, RefreshError>)
    requires Holds(fs.tree, root, hash, mirror) && Canonical(key) && key !in done
    requires NoneBroken(Judge(engine, mirror), done) && registry == (base - done) + Pages(Judge(engine, mirror), done)
    modifies fs`schedule
    ensures r.Ok? ==> NoneBroken(Judge(engine, mirror), done + {key})
    ensures r.Ok? ==> r.value == (base - (done + {key})) + Pages(Judge(engine, mirror), done + {key})
    ensures old(fs.schedule) == [] ==> fs.schedule == []
    ensures old(fs.schedule) == [] && key in mirror && r.Err? ==> Judge(engine, mirror)[key].Broken?
  {
    PagesStep(base, Judge(engine, mirror), done, key);
    var page := ReadPage(engine, fs, root, hash, key, mirror);
    if page.Err? {
      return Err(page.error);
    }
    return Ok(if page.value.Compiled? then registry[key := page.value.template] else registry - {key});
  }

  method BuildPages(engine: Engine, fs: FileSystem, root: Path, hash: string -> Digest, files: seq<string>, ghost mirror: Mirror)
    returns (r: Result<Registry, RefreshError>)
    requires Holds(fs.tree, root, hash, mirror) && (forall k :: k in files <==> k in mirror)
    requires forall i, j :: 0 <= i < j < |files| ==> files[i] != files[j]
    modifies fs`schedule
    ensures r.Ok? ==> NoneBroken(Judge(engine, mirror), Prefix(files, |files|)) && r.value == Pages(Judge(engine, mirror), Prefix(files, |files|))
    ensures old(fs.schedule) == [] ==> fs.schedule == [] && (r.Ok? <==> NoneBroken(Judge(engine, mirror), Prefix(files, |files|)))
  {
    ghost var verdicts := Judge(engine, mirror);
    var registry: Registry := map[];
    for i := 0 to |files|
      invariant fs.tree == old(fs.tree)
      invariant NoneBroken(verdicts, Prefix(files, i))
      invariant registry == Pages(verdicts, Prefix(files, i))
      invariant old(fs.schedule) == [] ==> fs.schedule == []
    {
      assert files[i] in mirror;
      r := AddNext(engine, fs, root, hash, files, i, registry, mirror);
      if r.Err? {
        return;
      }
      registry := r.value;
    }
    return Ok(registry);
  }

  method AddNext(engine: Engine, fs: FileSystem, root: Path, hash: string -> Digest, files: seq<string>, n: nat, registry: Registry, ghost mirror: Mirror)
    returns (r: Result<Registry, RefreshError>)
    requires Holds(fs.tree, root, hash, mirror) && n < |files| && files[n] in mirror
    requires forall i, j :: 0 <= i < j < |files| ==> files[i] != files[j]
    requires NoneBroken(Judge(engine, mirror), Prefix(files, n)) && registry == Pages(Judge(engine, mirror), Prefix(files, n))
    modifies fs`schedule
    ensures r.Ok? ==> NoneBroken(Judge(engine, mirror), Prefix(files, n + 1)) && r.value == Pages(Judge(engine, mirror), Prefix(files, n + 1))
    ensures old(fs.schedule) == [] ==> fs.schedule == [] && (r.Err? ==> !NoneBroken(Judge(engine, mirror), Prefix(files, |files|)))
  {
    PrefixStep(files, n);
    assert files[n] in Prefix(files, |files|);
    r := AddPage(engine, fs, root, hash, Prefix(files, n), files[n], registry, mirror);
  }

  method AddPage(engine: Engine, fs: FileSystem, root: Path, hash: string -> Digest, ghost done: set<string>, key: string, registry: Registry,
                 ghost mirror: Mirror)
    returns (r: Result<Registry, RefreshError>)
    requires Holds(fs.tree, root, hash, mirror) && key in mirror && key !in done
    requires NoneBroken(Judge(engine, mirror), done) && registry == Pages(Judge(engine, mirror), done)
    modifies fs`schedule
    ensures r.Ok? ==> NoneBroken(Judge(engine, mirror), done + {key}) && r.value == Pages(Judge(engine, mirror), done + {key})
    ensures old(fs.schedule) == [] ==> fs.schedule == [] && (r.Err? ==> Judge(engine, mirror)[key].Broken?)
  {
    PagesFrom(Judge(engine, mirror), done, key);
    var page := ReadPage(engine, fs, root, hash, key, mirror);
    if page.Err? {
      return Err(page.error);
    }
    return Ok(if page.value.Compiled? then registry[key := page.value.template] else registry);
  }

  lemma PagesFrom(verdicts: Verdicts, done: set<string>, key: string)
    requires key !in done
    ensures Pages(verdicts, done + {key}) ==
      if key in verdicts && verdicts[key].Compiled? then Pages(verdicts, done)[key := verdicts[key].template] else Pages(verdicts, done)
  {
    var none: Registry := map[];
    PagesStep(none, verdicts, done, key);
    assert (none - done) + Pages(verdicts, done) == Pages(verdicts, done);
    assert (none - (done + {key})) + Pages(verdicts, done + {key}) == Pages(verdicts, done + {key});
    assert Pages(verdicts, done) - {key} == Pages(verdicts, done);
  }

  /** The first keys of a list. */
  function Prefix(keys: seq<string>, n: nat): set<string>
    requires n <= |keys|
  {
    set k | k in keys[..n]
  }

  lemma PrefixStep(keys: seq<string>, n: nat)
    requires n < |keys| && forall i, j :: 0 <= i < j < |keys| ==> keys[i] != keys[j]
    ensures Prefix(keys, n + 1) == Prefix(keys, n) + {keys[n]} && keys[n] !in Prefix(keys, n)
  {
    assert keys[..n + 1] == keys[..n] + [keys[n]];
  }

  /** One file: read, and compiled when it is HTML. An error is a broken page or a failing read. */
  method ReadPage(engine: Engine, fs: FileSystem, root: Path, hash: string -> Digest, key: string, ghost mirror: Mirror)
    returns (r: Result<Page, RefreshError>)
    requires Holds(fs.tree, root, hash, mirror) && Canonical(key)
    modifies fs`schedule
    ensures r.Ok? ==> !r.value.Broken? && r.value == if key in mirror then PageOf(engine, key, mirror[key]) else NotHtml
    ensures old(fs.schedule) == [] ==> fs.schedule == []
    ensures old(fs.schedule) == [] && key in mirror && r.Err? ==> PageOf(engine, key, mirror[key]).Broken?
  {
    var obj := ReadObject(fs, root, hash, key, mirror);
    if obj.Err? {
      return Err(obj.error);
    }
    if obj.value.None? {
      return Ok(NotHtml);
    }
    var page := PageOf(engine, key, obj.value.value);
    return if page.Broken? then Err(TemplateRejected) else Ok(page);
  }
}
