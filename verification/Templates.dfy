/** The template registry: a full build from a mirror, and the incremental update that replaces it. */
module Templates {
  import opened Common
  import opened Text
  import opened Freshness
  import opened LocalMirror
  import opened Edge

  datatype Template = Template(source: string)

  type Registry = map<string, Template>

  function MediaType(contentType: string): string {
    Trim(Split(contentType, ';')[0])
  }

  predicate IsHtml(path: string, contentType: Option<string>) {
    if contentType.Some? then
      ToAsciiLower(MediaType(contentType.value)) == "text/html"
    else
      EndsWith(ToAsciiLower(path), ".html") || EndsWith(ToAsciiLower(path), ".htm")
  }

  datatype Page = NotHtml | Broken | Compiled(template: Template)

  function PageOf(engine: Engine, key: string, obj: LocalObject): Page {
    if !IsHtml(key, obj.metadata.contentType) then NotHtml
    else match engine.decode(obj.body)
      case None => Broken
      case Some(source) => if engine.compiles(source) then Compiled(Template(source)) else Broken
  }

  /** The verdict on every file of a mirror. */
  type Verdicts = map<string, Page>

  function Judge(engine: Engine, mirror: Mirror): Verdicts {
    map k | k in mirror :: PageOf(engine, k, mirror[k])
  }

  predicate NoneBroken(verdicts: Verdicts, keys: set<string>) {
    forall k :: k in keys && k in verdicts ==> !verdicts[k].Broken?
  }

  function Pages(verdicts: Verdicts, keys: set<string>): Registry {
    map k | k in keys && k in verdicts && verdicts[k].Compiled? :: verdicts[k].template
  }

  /** What a rebuild from nothing makes of a mirror. */
  function FullRegistry(engine: Engine, mirror: Mirror): Option<Registry> {
    var verdicts := Judge(engine, mirror);
    if NoneBroken(verdicts, mirror.Keys) then Some(Pages(verdicts, mirror.Keys)) else None
  }

  /** What the incremental update makes of the active registry and a staged mirror. */
  function UpdatedRegistry(engine: Engine, active: Registry, mirror: Mirror, diff: OriginFreshnessDiff): Option<Registry> {
    var verdicts := Judge(engine, mirror);
    if NoneBroken(verdicts, diff.Changed())
    then Some((active - diff.removed - diff.Changed()) + Pages(verdicts, diff.Changed()))
    else None
  }

  /** `next` replaces `previous` along `diff`: every key is accounted for and the unmodified ones are carried over. */
  ghost predicate Carries(previous: Mirror, next: Mirror, diff: OriginFreshnessDiff) {
    && diff.unmodified + diff.modified + diff.removed == previous.Keys
    && diff.unmodified + diff.Changed() == next.Keys
    && diff.unmodified !! diff.Changed()
    && diff.unmodified !! diff.removed
    && forall k :: k in diff.unmodified ==> k in next && k in previous && next[k] == previous[k]
  }

  /** The fast form agrees with the simple one, in success and in failure. */
  lemma IncrementalIsFullRebuild(engine: Engine, previous: Mirror, active: Registry, next: Mirror, diff: OriginFreshnessDiff)
    requires FullRegistry(engine, previous) == Some(active)
    requires Carries(previous, next, diff)
    ensures UpdatedRegistry(engine, active, next, diff) == FullRegistry(engine, next)
  {
    var before, after := Judge(engine, previous), Judge(engine, next);
    CarriedVerdicts(before, after, diff);
    assert active == Pages(before, previous.Keys);
  }

  lemma CarriedVerdicts(before: Verdicts, after: Verdicts, diff: OriginFreshnessDiff)
    requires diff.unmodified + diff.modified + diff.removed == before.Keys
    requires diff.unmodified + diff.Changed() == after.Keys
    requires diff.unmodified !! diff.Changed() && diff.unmodified !! diff.removed
    requires forall k :: k in diff.unmodified ==> k in after && k in before && after[k] == before[k]
    requires NoneBroken(before, before.Keys)
    ensures NoneBroken(after, diff.Changed()) <==> NoneBroken(after, after.Keys)
    ensures (Pages(before, before.Keys) - diff.removed - diff.Changed()) + Pages(after, diff.Changed()) == Pages(after, after.Keys)
  {
    forall k ensures k in after ==> k in diff.unmodified || k in diff.Changed() {
      if k in after { assert k in after.Keys; }
    }
    forall k ensures k in before ==> k in diff.unmodified || k in diff.modified || k in diff.removed {
      if k in before { assert k in before.Keys; }
    }
    var updated := (Pages(before, before.Keys) - diff.removed - diff.Changed()) + Pages(after, diff.Changed());
    assert updated == Pages(after, after.Keys);
  }

  /** The registry shows under `key` just what a rebuild would take from `base`. */
  predicate ShowsTemplate(engine: Engine, active: Registry, base: Mirror, key: string) {
    var page := if key in base then PageOf(engine, key, base[key]) else NotHtml;
    match page
    case NotHtml => key !in active
    case Broken => false
    case Compiled(template) => key in active && active[key] == template
  }

  /** When the fast form agrees with the simple one although the keys it skips come from a mirror that
      the registry need not describe. */
  lemma UpdateIsFullExactly(engine: Engine, active: Registry, base: Mirror, next: Mirror, diff: OriginFreshnessDiff)
    requires active.Keys <= diff.unmodified + diff.modified + diff.removed
    requires diff.unmodified !! diff.Changed() && diff.unmodified !! diff.removed
    requires next.Keys == diff.Changed() + (diff.unmodified * base.Keys)
    requires forall k :: k in diff.unmodified && k in base ==> k in next && next[k] == base[k]
    requires UpdatedRegistry(engine, active, next, diff).Some?
    ensures FullRegistry(engine, next) == UpdatedRegistry(engine, active, next, diff) <==>
      forall k :: k in diff.unmodified ==> ShowsTemplate(engine, active, base, k)
  {
    var verdicts := Judge(engine, next);
    var shown := map k | k in base && k in diff.unmodified :: PageOf(engine, k, base[k]);
    forall k ensures k in verdicts <==> k in diff.Changed() || k in shown {
      assert k in next <==> k in next.Keys;
    }
    forall k | k in active ensures k in diff.unmodified || k in diff.modified || k in diff.removed {
      assert k in active.Keys;
    }
    UpdatedIsPages(active, verdicts, diff, shown);
    forall k | k in diff.unmodified ensures ShowsTemplate(engine, active, base, k) <==> Agree(active, shown, k) {}
    assert verdicts.Keys == next.Keys;
  }

  /** The verdict on a carried key agrees with the registry's entry; no verdict counts as no template. */
  predicate Agree(active: Registry, shown: Verdicts, key: string) {
    var page := if key in shown then shown[key] else NotHtml;
    match page
    case NotHtml => key !in active
    case Broken => false
    case Compiled(template) => key in active && active[key] == template
  }

  lemma UpdatedIsPages(active: Registry, verdicts: Verdicts, diff: OriginFreshnessDiff, shown: Verdicts)
    requires forall k :: k in active ==> k in diff.unmodified || k in diff.modified || k in diff.removed
    requires diff.unmodified !! diff.Changed() && diff.unmodified !! diff.removed
    requires forall k :: k in verdicts <==> k in diff.Changed() || k in shown
    requires forall k :: k in shown ==> k in diff.unmodified && k in verdicts && verdicts[k] == shown[k]
    requires NoneBroken(verdicts, diff.Changed())
    ensures var updated := (active - diff.removed - diff.Changed()) + Pages(verdicts, diff.Changed());
      (NoneBroken(verdicts, verdicts.Keys) && Pages(verdicts, verdicts.Keys) == updated) <==>
        forall k :: k in diff.unmodified ==> Agree(active, shown, k)
  {
    var updated, all := (active - diff.removed - diff.Changed()) + Pages(verdicts, diff.Changed()), Pages(verdicts, verdicts.Keys);
    forall k | k in diff.unmodified ensures (k in updated <==> k in active) && (k in active ==> updated[k] == active[k]) {}
    if NoneBroken(verdicts, verdicts.Keys) && all == updated {
      forall k | k in diff.unmodified ensures Agree(active, shown, k) {
        assert k in all <==> k in updated;
      }
    }
    if forall k :: k in diff.unmodified ==> Agree(active, shown, k) {
      forall k | k in verdicts ensures !verdicts[k].Broken? {
        assert k in shown ==> Agree(active, shown, k);
      }
      forall k ensures (k in updated <==> k in all) && (k in updated ==> updated[k] == all[k]) {
        assert k in diff.unmodified ==> Agree(active, shown, k);
      }
      assert updated == all;
    }
  }

  lemma PagesStep(base: Registry, verdicts: Verdicts, done: set<string>, key: string)
    requires key !in done
    ensures var before, after := (base - done) + Pages(verdicts, done), (base - (done + {key})) + Pages(verdicts, done + {key});
      after == if key in verdicts && verdicts[key].Compiled? then before[key := verdicts[key].template] else before - {key}
  {
    var before, after := (base - done) + Pages(verdicts, done), (base - (done + {key})) + Pages(verdicts, done + {key});
    if key in verdicts && verdicts[key].Compiled? {
      assert after == before[key := verdicts[key].template];
    } else {
      assert after == before - {key};
    }
  }
}
