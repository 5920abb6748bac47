/** The stateful part of the head plugin: one instance per application (or per
    server render). It holds the `headReady` flag, the shared title template,
    the list of head objects handed to the head manager, the DOM watchers it
    installed, the unmount hooks it scheduled and a count of the explicit DOM
    updates it requested. What the head manager does with the list is not
    part of this model. */
module Plugin {
  import opened Head

  /** One registration: the id that stands for its computed head object, and
      the descriptor it was registered with. */
  datatype Registration = Registration(id: nat, descriptor: Descriptor)

  /** A DOM watcher: the one installed when the app is mounted, or one
      installed by a client registration made after that. */
  datatype Watcher = MountWatcher | RegistrationWatcher(id: nat)

  /** The registration ids of rs, in order. */
  function Ids(rs: seq<Registration>): (ids: seq<nat>)
    ensures |ids| == |rs|
    ensures forall k :: 0 <= k < |rs| ==> ids[k] == rs[k].id
  {
    seq(|rs|, k requires 0 <= k < |rs| => rs[k].id)
  }

  /** Ids strictly increasing: registration order, no id twice. */
  predicate Increasing(ids: seq<nat>)
  {
    forall j, k :: 0 <= j < k < |ids| ==> ids[j] < ids[k]
  }

  /** The head manager's removal of one head object: the first entry with
      that id is taken out, the others keep their order; a missing id
      changes nothing. */
  function RemoveRegistration(rs: seq<Registration>, id: nat): seq<Registration>
    decreases |rs|
  {
    if rs == [] then []
    else if rs[0].id == id then rs[1..]
    else [rs[0]] + RemoveRegistration(rs[1..], id)
  }

  /** Removal of one id from the list of pending unmount hooks. */
  function RemoveId(ids: seq<nat>, id: nat): seq<nat>
    decreases |ids|
  {
    if ids == [] then []
    else if ids[0] == id then ids[1..]
    else [ids[0]] + RemoveId(ids[1..], id)
  }

  /** Removal takes out exactly the entry at the first index holding the id. */
  lemma {:induction false} RemoveRegistrationSplice(rs: seq<Registration>, id: nat, k: nat)
    requires k < |rs| && rs[k].id == id
    requires forall j :: 0 <= j < k ==> rs[j].id != id
    ensures RemoveRegistration(rs, id) == rs[..k] + rs[k + 1..]
    decreases |rs|
  {
    if k > 0 {
      RemoveRegistrationSplice(rs[1..], id, k - 1);
      assert rs[..k] == [rs[0]] + rs[1..][..k - 1];
      assert rs[k + 1..] == rs[1..][k..];
    }
  }

  /** Removing an id that is not present changes nothing. */
  lemma {:induction false} RemoveRegistrationAbsent(rs: seq<Registration>, id: nat)
    requires forall j :: 0 <= j < |rs| ==> rs[j].id != id
    ensures RemoveRegistration(rs, id) == rs
    decreases |rs|
  {
    if rs != [] {
      RemoveRegistrationAbsent(rs[1..], id);
    }
  }

  /** Deleting index k of a list with increasing ids loses exactly the
      entry with that index's id. */
  lemma SpliceMember(rs: seq<Registration>, k: nat, r: Registration)
    requires Increasing(Ids(rs)) && k < |rs|
    ensures r in rs[..k] + rs[k + 1..] <==> r in rs && r.id != rs[k].id
  {
    var ids := Ids(rs);
    var out := rs[..k] + rs[k + 1..];
    if r in out {
      var a :| 0 <= a < |out| && out[a] == r;
      var m := if a < k then a else a + 1;
      assert out[a] == rs[m];
      assert ids[m] != ids[k] by {
        if m < k { assert ids[m] < ids[k]; } else { assert ids[k] < ids[m]; }
      }
    }
    if r in rs && r.id != rs[k].id {
      var m :| 0 <= m < |rs| && rs[m] == r;
      assert m != k;
      assert out[if m < k then m else m - 1] == r;
    }
  }

  /** Appending an id above all others keeps a list increasing. */
  lemma AppendIncreasing(ids: seq<nat>, x: nat)
    requires Increasing(ids)
    requires forall y :: y in ids ==> y < x
    ensures Increasing(ids + [x])
  {
    var out := ids + [x];
    forall j, k | 0 <= j < k < |out| ensures out[j] < out[k] {
      if k == |ids| {
        assert ids[j] in ids;
      }
    }
  }

  /** Deleting an index keeps the ids increasing. */
  lemma SpliceIncreasing(rs: seq<Registration>, k: nat)
    requires Increasing(Ids(rs)) && k < |rs|
    ensures Increasing(Ids(rs[..k] + rs[k + 1..]))
  {
    var ids := Ids(rs);
    var out := rs[..k] + rs[k + 1..];
    forall a, b | 0 <= a < b < |out| ensures Ids(out)[a] < Ids(out)[b] {
      var ma := if a < k then a else a + 1;
      var mb := if b < k then b else b + 1;
      assert out[a] == rs[ma] && out[b] == rs[mb];
      assert ids[ma] < ids[mb];
    }
  }

  /** With increasing ids, removing a present id leaves every other entry in
      the same order, loses only that one entry, and keeps the ids increasing. */
  lemma RemoveRegistrationExact(rs: seq<Registration>, id: nat)
    requires Increasing(Ids(rs))
    requires id in Ids(rs)
    ensures |RemoveRegistration(rs, id)| == |rs| - 1
    ensures forall r :: r in RemoveRegistration(rs, id) <==> r in rs && r.id != id
    ensures Increasing(Ids(RemoveRegistration(rs, id)))
  {
    var ids := Ids(rs);
    var k :| 0 <= k < |rs| && ids[k] == id;
    forall j | 0 <= j < k ensures rs[j].id != id {
      assert ids[j] < ids[k];
    }
    RemoveRegistrationSplice(rs, id, k);
    forall r ensures r in rs[..k] + rs[k + 1..] <==> r in rs && r.id != id {
      SpliceMember(rs, k, r);
    }
    SpliceIncreasing(rs, k);
  }

  /** Appending a fresh registration keeps the list ordered by id and
      consistent with the history of registered descriptors. */
  lemma AppendRegistration(heads: seq<Registration>, registered: seq<Descriptor>, d: Descriptor)
    requires Increasing(Ids(heads))
    requires forall k :: 0 <= k < |heads| ==>
      heads[k].id < |registered| && heads[k].descriptor == registered[heads[k].id]
    ensures Ids(heads + [Registration(|registered|, d)]) == Ids(heads) + [|registered|]
    ensures Increasing(Ids(heads + [Registration(|registered|, d)]))
    ensures forall k :: 0 <= k < |heads| + 1 ==>
      (heads + [Registration(|registered|, d)])[k].id < |registered| + 1 &&
      (heads + [Registration(|registered|, d)])[k].descriptor ==
        (registered + [d])[(heads + [Registration(|registered|, d)])[k].id]
  {
    var ids := Ids(heads);
    forall y | y in ids ensures y < |registered| {
      var k :| 0 <= k < |ids| && ids[k] == y;
    }
    AppendIncreasing(ids, |registered|);
    assert Ids(heads + [Registration(|registered|, d)]) == ids + [|registered|];
  }

  class HeadPlugin {
    /** Server rendering or client: fixed for the plugin instance. */
    const isServer: bool
    /** Set once the app is mounted; the `app:mounted` hook is registered with
        `hookOnce`, and its one run is the run that sets this flag. */
    var headReady: bool
    /** The shared title template of all registrations. */
    var titleTemplate: Option<TitleTemplate>
    /** The head objects handed to the head manager, in registration order. */
    var heads: seq<Registration>
    /** The DOM watchers installed, in order. */
    var watchers: seq<Watcher>
    /** The registrations whose unmount hook is still pending. */
    var unmountHooks: seq<nat>
    /** The explicit `updateDOM` calls made by unmount hooks. */
    var domUpdates: nat
    /** The id the next registration gets. */
    var nextId: nat
    /** Every descriptor registered so far, indexed by registration id. */
    ghost var registered: seq<Descriptor>

    ghost predicate Valid()
      reads this
    {
      && |registered| == nextId
      && titleTemplate == CaptureAll(None, registered)
      && Increasing(Ids(heads))
      && (forall k :: 0 <= k < |heads| ==>
            heads[k].id < nextId && heads[k].descriptor == registered[heads[k].id])
      && Increasing(unmountHooks)
      && (forall id :: id in unmountHooks ==> id < nextId)
      && (forall id :: id in unmountHooks ==> id in Ids(heads))
      && (headReady <==> MountWatcher in watchers)
      && (isServer ==> unmountHooks == [])
      && (isServer ==> forall w :: w in watchers ==> w == MountWatcher)
    }

    /** The head objects as the head manager currently sees them. Each one is
        recomputed from its own descriptor and the shared template as the
        whole sequence of registrations left it, so a template declared by a
        later registration reaches the head objects of earlier ones. */
    function HeadObjects(): (objs: seq<HeadObject>)
      requires Valid()
      reads this
      ensures |objs| == |heads|
      ensures forall k :: 0 <= k < |heads| ==>
        && objs[k].overrides.title == DeriveTitle(CaptureAll(None, registered), heads[k].descriptor.title)
        && objs[k].overrides.meta == OverrideMeta(heads[k].descriptor)
        && objs[k].title == ResolvedTitle(heads[k].descriptor, CaptureAll(None, registered))
    {
      seq(|heads|, k reads this requires 0 <= k < |heads| =>
        HeadObject(DeriveOverrides(heads[k].descriptor, titleTemplate),
                   ResolvedTitle(heads[k].descriptor, titleTemplate)))
    }

    /** The plugin as it starts: not ready, no template, nothing registered. */
    constructor (isServer: bool)
      ensures Valid()
      ensures this.isServer == isServer
      ensures !headReady && titleTemplate == None
      ensures heads == [] && watchers == [] && unmountHooks == [] && domUpdates == 0
      ensures nextId == 0 && registered == []
    {
      this.isServer := isServer;
      headReady := false;
      titleTemplate := None;
      heads := [];
      watchers := [];
      unmountHooks := [];
      domUpdates := 0;
      nextId := 0;
      registered := [];
    }

    /** The `app:mounted` hook, registered with `hookOnce`: its first run
        installs the mount watcher and sets `headReady`; later signals do
        nothing. */
    method AppMounted()
      requires Valid()
      modifies this
      ensures Valid()
      ensures headReady
      ensures watchers == old(watchers) + (if old(headReady) then [] else [MountWatcher])
      ensures titleTemplate == old(titleTemplate) && heads == old(heads)
      ensures unmountHooks == old(unmountHooks) && domUpdates == old(domUpdates)
      ensures nextId == old(nextId) && registered == old(registered)
    {
      if !headReady {
        watchers := watchers + [MountWatcher];
        headReady := true;
      }
    }

    /** One registration (`_useHead`). The template is captured when the
        descriptor has the key, the head object is added, and on the server
        that is all. On the client a DOM watcher of its own is installed when
        the app is already mounted, and an unmount hook is scheduled when a
        component instance is current. */
    method Register(d: Descriptor, hasInstance: bool) returns (id: nat)
      requires Valid()
      modifies this
      ensures Valid()
      ensures id == old(nextId) && nextId == old(nextId) + 1
      ensures registered == old(registered) + [d]
      ensures titleTemplate == Capture(old(titleTemplate), d)
      ensures heads == old(heads) + [Registration(id, d)]
      ensures headReady == old(headReady)
      ensures watchers == old(watchers) +
        (if !isServer && old(headReady) then [RegistrationWatcher(id)] else [])
      ensures unmountHooks == old(unmountHooks) +
        (if !isServer && hasInstance then [id] else [])
      ensures domUpdates == old(domUpdates)
    {
      id := nextId;
      AppendRegistration(heads, registered, d);
      assert (registered + [d])[..|registered|] == registered;
      if d.titleTemplate.Present? {
        titleTemplate := d.titleTemplate.value;
      }
      heads := heads + [Registration(id, d)];
      nextId := nextId + 1;
      registered := registered + [d];
      // On the server the registration ends here.
      if !isServer {
        if headReady {
          watchers := watchers + [RegistrationWatcher(id)];
        }
        if hasInstance {
          AppendIncreasing(unmountHooks, id);
          unmountHooks := unmountHooks + [id];
        }
      }
    }

    /** The teardown signal of the component that made registration id. When
        that registration scheduled an unmount hook, the hook removes exactly
        its head object, keeps the others in order and requests one DOM
        update; it runs at most once. Without a pending hook nothing happens. */
    method Unmount(id: nat)
      requires Valid()
      modifies this
      ensures Valid()
      ensures id !in unmountHooks
      ensures old(id in unmountHooks) ==>
        && heads == RemoveRegistration(old(heads), id)
        && |heads| == |old(heads)| - 1
        && (forall r :: r in heads <==> r in old(heads) && r.id != id)
        && unmountHooks == RemoveId(old(unmountHooks), id)
        && domUpdates == old(domUpdates) + 1
      ensures old(id !in unmountHooks) ==>
        heads == old(heads) && unmountHooks == old(unmountHooks) && domUpdates == old(domUpdates)
      ensures headReady == old(headReady) && watchers == old(watchers)
      ensures titleTemplate == old(titleTemplate)
      ensures nextId == old(nextId) && registered == old(registered)
    {
      if id in unmountHooks {
        RemoveRegistrationExact(heads, id);
        RemoveIdExact(unmountHooks, id);
        heads := RemoveRegistration(heads, id);
        domUpdates := domUpdates + 1;
        unmountHooks := RemoveId(unmountHooks, id);
      }
    }
  }

  /** With increasing ids, removing a present id from the hook list takes out
      just that id and keeps the list increasing. */
  lemma {:induction false} RemoveIdExact(ids: seq<nat>, id: nat)
    requires Increasing(ids)
    ensures forall x :: x in RemoveId(ids, id) <==> x in ids && x != id
    ensures Increasing(RemoveId(ids, id))
    decreases |ids|
  {
    if ids != [] {
      if ids[0] == id {
        forall x | x in ids[1..] ensures x != id {
          var k :| 0 <= k < |ids[1..]| && ids[1..][k] == x;
          assert ids[0] < ids[k + 1];
        }
      } else {
        RemoveIdExact(ids[1..], id);
        var tail := RemoveId(ids[1..], id);
        var out := [ids[0]] + tail;
        forall j, k | 0 <= j < k < |out| ensures out[j] < out[k] {
          if j == 0 {
            assert tail[k - 1] in ids[1..];
            var m :| 0 <= m < |ids[1..]| && ids[1..][m] == tail[k - 1];
            assert ids[0] < ids[m + 1];
          }
        }
      }
    }
  }
}

/** Clients of the plugin, stated against the contracts of HeadPlugin alone. */
module PluginScenarios {
  import opened Head
  import opened Plugin

  /** On the client: a page registers its head, a second component registers
      its own, and then the second component's teardown signal fires. Only
      the page's head object is left, one DOM update was requested and the
      page's unmount hook is still pending. */
  method ClientWithdrawal(page: Descriptor, other: Descriptor)
    returns (remaining: seq<Registration>, updates: nat, hooks: seq<nat>)
    ensures remaining == [Registration(0, page)]
    ensures updates == 1
    ensures hooks == [0]
  {
    var p := new HeadPlugin(false);
    var a := p.Register(page, true);
    var b := p.Register(other, true);
    var both := [Registration(0, page), Registration(1, other)];
    assert p.heads == both && p.unmountHooks == [0, 1];
    assert RemoveRegistration(both, 1) == [Registration(0, page)] by {
      assert both[1..] == [Registration(1, other)];
      assert both[1..][1..] == [];
    }
    assert RemoveId([0, 1], 1) == [0] by {
      assert [0, 1][1..] == [1] && [1][1..] == [];
    }
    p.Unmount(b);
    remaining := p.heads;
    updates := p.domUpdates;
    hooks := p.unmountHooks;
  }

  /** A page registers its title first; a later component declares the
      template. The shared template is read again by every head object, so
      the page's head object is now titled by the later template. */
  method LateTemplateReachesEarlier() returns (overrideTitle: Option<string>, title: Option<string>)
    ensures overrideTitle == Some("Home - Site")
    ensures title == Some("Home - Site")
  {
    var p := new HeadPlugin(false);
    var page := Descriptor(Some("Home"), Absent, None, None);
    var layout := Descriptor(None, Present(Some(Str("%s - Site"))), None, None);
    var a := p.Register(page, true);
    var b := p.Register(layout, true);
    assert p.registered == [page, layout] && p.heads[0].descriptor == page;
    LastDeclarationWins(None, p.registered, 1);
    Template.SiteTitleExample();
    var objs := p.HeadObjects();
    overrideTitle := objs[0].overrides.title;
    title := objs[0].title;
  }

  /** On the server a registration schedules nothing: a teardown signal
      removes nothing and no watcher is installed. */
  method ServerKeepsEverything() returns (count: nat, watcherCount: nat, updates: nat)
    ensures count == 1 && watcherCount == 0 && updates == 0
  {
    var p := new HeadPlugin(true);
    var a := p.Register(Descriptor(Some("Home"), Absent, Some("utf-8"), None), true);
    p.Unmount(a);
    count := |p.heads|;
    watcherCount := |p.watchers|;
    updates := p.domUpdates;
  }
}
