/** The downloads and the prune of the protocol are the staging that `MirrorStaging` does on disk. */
module StagingRefinement {
  import opened Common
  import opened Freshness
  import opened LocalMirror
  import opened MirrorSync
  import opened MirrorStaging
  import opened RefreshProtocol

  predicate IsDownload(e: Event) {
    e.RemoteWrite? || (e.Stage? && e.staging.Get?)
  }

  function Answering(remote: Remote, key: string, obj: RemoteObject): Remote {
    remote.(get := k => if k == key then Ok(obj) else remote.get(k))
  }

  /** `done` was downloaded on top of `before`, from a remote that answered as `remote` does. */
  ghost predicate Downloaded(remote: Remote, before: Work, after: Work, done: set<string>) {
    && after == before.(staged := before.staged + Fetched(remote, done))
    && AllDelivered(remote, before.next.files, done)
  }

  lemma OneMoreDownload(remote: Remote, before: Work, mid: Work, done: set<string>, key: string, obj: RemoteObject)
    requires Downloaded(remote, before, mid, done) && key !in done && key in before.next.files
    requires ValidateDownloadedObject(key, before.next.files[key], obj).Ok?
    ensures Downloaded(Answering(remote, key, obj), before, mid.(staged := mid.staged[key := Stored(obj)]), done + {key})
  {
    var next := Answering(remote, key, obj);
    forall k | k in done + {key} ensures Delivers(next, before.next.files, k) {
      assert k != key ==> Delivers(remote, before.next.files, k);
    }
    FetchedAnswering(remote, before.staged, done, key, obj);
  }

  lemma FetchedAnswering(remote: Remote, staged: Mirror, done: set<string>, key: string, obj: RemoteObject)
    requires key !in done
    ensures staged + Fetched(Answering(remote, key, obj), done + {key}) == (staged + Fetched(remote, done))[key := Stored(obj)]
  {
    var next := Answering(remote, key, obj);
    assert Fetched(next, done) == Fetched(remote, done);
    FetchedOneMore(next, staged, done, key);
  }

  /** Any run of gets, with remote writes anywhere in between, fetches what some fixed remote delivers. */
  lemma {:induction false} GetsAreFetches(site: Site, s: OriginState, events: seq<Event>, list: Remote) returns (remote: Remote)
    requires s.hist != [] && s.task.Downloading? && (forall i :: 0 <= i < |events| ==> IsDownload(events[i]))
    requires Exec(site, s, events).Some? && Exec(site, s, events).value.task.Downloading?
    ensures var after := Exec(site, s, events).value.task;
      && remote.list == list.list && after.todo <= s.task.todo
      && Downloaded(remote, s.task.work, after.work, s.task.todo - after.todo)
  {
    remote := list;
    if events == [] {
      assert s.task.todo - s.task.todo == {};
      assert s.task.work.staged + Fetched(remote, {}) == s.task.work.staged;
    } else {
      var init, last := events[..|events| - 1], events[|events| - 1];
      var mid := Exec(site, s, init).value;
      assert forall i :: 0 <= i < |init| ==> init[i] == events[i];
      assert mid.task.Downloading?;
      remote := GetsAreFetches(site, s, init, list);
      if last.Stage? {
        var key, bucket := last.staging.key, mid.hist[|mid.hist| - 1];
        OneMoreDownload(remote, s.task.work, mid.task.work, s.task.todo - mid.task.todo, key, bucket[key]);
        remote := Answering(remote, key, bucket[key]);
        assert s.task.todo - (mid.task.todo - {key}) == (s.task.todo - mid.task.todo) + {key};
      }
    }
  }

  /** When the protocol has downloaded every changed key and pruned, its staged mirror is the one the
      disk holds after staging from the same listing and the same answers. */
  lemma ProtocolStagesTheSame(site: Site, s: OriginState, events: seq<Event>, list: Remote) returns (remote: Remote)
    requires s.hist != [] && s.task.Downloading? && s.task.todo == s.task.work.diff.Changed()
    requires forall i :: 0 <= i < |events| ==> IsDownload(events[i])
    requires Exec(site, s, events).Some? && Exec(site, s, events).value.task.Downloading? && Exec(site, s, events).value.task.todo == {}
    ensures remote.list == list.list && AllDelivered(remote, s.task.work.next.files, s.task.work.diff.Changed())
    ensures var pruned := StagingStep(site, Exec(site, s, events).value, Prune);
      var sync := StagedSync(s.task.work.next, s.task.work.diff, |s.task.work.diff.added| + |s.task.work.diff.modified|);
      pruned.Some? && pruned.value.task == Staged(s.task.work.(staged := StagedMirror(s.task.work.staged, remote, sync)))
  {
    remote := GetsAreFetches(site, s, events, list);
    assert s.task.todo - {} == s.task.todo;
  }
}
