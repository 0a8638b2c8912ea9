/** The page-level controller: the load handler, the route-change callback
    chained to the change detector, and the popup's decision callback. */
module Page {
  import opened Wrappers
  import opened Seqs
  import ConsentStore
  import ContainerId
  import TagManager
  import RouteWatcher

  /** The page: the tag-manager state, the route watcher's last-seen URL, and
      whether the consent popup is on screen. */
  datatype PageState = PageState(tag: TagManager.State, lastUrl: string, popupMounted: bool)

  /** The load handler: set up the tag manager's default consent, start
      watching routes from `href`, and mount the popup exactly when no decision
      is stored. `stored` is the flag and `layer` whatever `dataLayer` already
      held; the pending queue starts empty and nothing has been sent. */
  function Load(stored: Option<string>, layer: seq<TagManager.Entry>, href: string): (p: PageState)
    ensures p.popupMounted <==> ConsentStore.CheckHasConsent(stored) == ConsentStore.Unset
    ensures p.lastUrl == href
    ensures p.tag.storage == stored && p.tag.gtagPresent
    ensures p.tag.queue == [] && p.tag.sent == []
    ensures |p.tag.dataLayer| == |layer| + 2 && p.tag.dataLayer[..|layer|] == layer
  {
    var tag := TagManager.LoadGtm(TagManager.State(stored, layer, [], [], false));
    PageState(tag, href, ConsentStore.ShouldMountPopup(stored))
  }

  /** The mutation-observer callback finding the page at `href`: on a change,
      reconfigure page-view tracking with the pathname of the new URL.
      `pathname` stands for the host's URL parser. */
  function OnMutation(p: PageState, href: string, env: Option<string>, pathname: string -> string): (q: PageState)
    ensures q.lastUrl == href && q.popupMounted == p.popupMounted
  {
    var st := RouteWatcher.Observe(p.lastUrl, href);
    var tag := if st.fired.Some? then TagManager.OnRouteChange(p.tag, env, pathname(st.fired.value)) else p.tag;
    PageState(tag, st.lastUrl, p.popupMounted)
  }

  /** The mutation callback run for each URL of `hrefs` in turn. */
  function OnMutations(p: PageState, hrefs: seq<string>, env: Option<string>, pathname: string -> string): PageState
    decreases |hrefs|
  {
    if hrefs == [] then p else OnMutations(OnMutation(p, hrefs[0], env, pathname), hrefs[1..], env, pathname)
  }

  /** The popup's callback: record the decision, then take the popup down.
      `path` is the current pathname. */
  function OnPopupChoice(p: PageState, result: bool, env: Option<string>, path: string): (q: PageState)
    requires p.popupMounted
    ensures !q.popupMounted && q.lastUrl == p.lastUrl
    ensures ConsentStore.CheckHasConsent(q.tag.storage) == ConsentStore.Decided(result)
  {
    PageState(TagManager.UpdateConsent(p.tag, result, env, path), p.lastUrl, false)
  }

  /** On a first visit the popup is shown and collection defaults to denied
      until an update arrives. */
  lemma FirstVisit(layer: seq<TagManager.Entry>, href: string)
    ensures Load(None, layer, href).popupMounted
    ensures Load(None, layer, href).tag.dataLayer[|layer|]
            == TagManager.ConsentCmd(TagManager.Default(TagManager.Indefinite), TagManager.Denied)
  {
  }

  /** After an earlier acceptance the popup stays hidden and collection defaults
      to granted with no wait. */
  lemma ReturningAfterAccept(layer: seq<TagManager.Entry>, href: string)
    ensures !Load(Some("true"), layer, href).popupMounted
    ensures Load(Some("true"), layer, href).tag.dataLayer[|layer|]
            == TagManager.ConsentCmd(TagManager.Default(TagManager.Zero), TagManager.Granted)
  {
  }

  /** Declining on a first visit stores "false", removes the popup, and no
      later event is ever sent. */
  lemma {:induction false} DeclineSilencesEvents(layer: seq<TagManager.Entry>, href: string,
                                                 env: Option<string>, path: string,
                                                 actions: seq<TagManager.Action>)
    ensures OnPopupChoice(Load(None, layer, href), false, env, path).tag.storage == Some("false")
    ensures !OnPopupChoice(Load(None, layer, href), false, env, path).popupMounted
    ensures TagManager.GtmEvents(OnPopupChoice(Load(None, layer, href), false, env, path).tag, actions).sent == []
  {
    var p := Load(None, layer, href);
    var q := OnPopupChoice(p, false, env, path);
    TagManager.UpdateConsentDecline(p.tag, env, path);
    TagManager.DeclinedDropsAll(q.tag, actions);
  }

  /** Accepting on a first visit (with no denied update already in `dataLayer`)
      stores "true", records a granted update and a page-view configuration,
      and sends `updateConsent` then `cookie_consent_statistics`. */
  lemma AcceptOnFirstVisit(layer: seq<TagManager.Entry>, href: string, env: Option<string>, path: string)
    requires !TagManager.DeniedUpdateRecorded(layer)
    ensures OnPopupChoice(Load(None, layer, href), true, env, path).tag.storage == Some("true")
    ensures OnPopupChoice(Load(None, layer, href), true, env, path).tag.sent
            == ["updateConsent", "cookie_consent_statistics"]
    ensures OnPopupChoice(Load(None, layer, href), true, env, path).tag.queue == []
    ensures OnPopupChoice(Load(None, layer, href), true, env, path).tag.dataLayer[|layer| + 2]
            == TagManager.ConsentCmd(TagManager.Update, TagManager.Granted)
    ensures OnPopupChoice(Load(None, layer, href), true, env, path).tag.dataLayer[|layer| + 3]
            == TagManager.ConfigCmd(ContainerId.GetId(env), path)
  {
    var p := Load(None, layer, href);
    assert !TagManager.DeniedUpdateRecorded(p.tag.dataLayer) by {
      assert p.tag.dataLayer == layer + p.tag.dataLayer[|layer|..];
      assert p.tag.dataLayer[|layer|].kind.Default?;
      assert p.tag.dataLayer[|layer| + 1].Marker?;
    }
    TagManager.UpdateConsentAccept(p.tag, env, path);
    var q := OnPopupChoice(p, true, env, path);
    assert Reverse(p.tag.queue) == [];
    var s1 := p.tag.(storage := ConsentStore.Store(true));
    var s2 := TagManager.Gtag(TagManager.Gtag(s1, TagManager.ConsentCmd(TagManager.Update, TagManager.Granted)),
                              TagManager.ConfigCmd(ContainerId.GetId(env), path));
    assert s2.dataLayer[|layer| + 2] == TagManager.ConsentCmd(TagManager.Update, TagManager.Granted);
    var s3 := TagManager.GtmEvent(s2, "updateConsent");
    assert |s3.dataLayer| >= |s2.dataLayer| && s3.dataLayer[..|s2.dataLayer|] == s2.dataLayer;
    assert s3.dataLayer[|layer| + 2] == s2.dataLayer[|layer| + 2];
  }

  /** The `dataLayer` messages that page-view reconfigurations for `urls` push. */
  function ConfigCmds(env: Option<string>, pathname: string -> string, urls: seq<string>): (es: seq<TagManager.Entry>)
    ensures |es| == |urls|
    ensures forall i :: 0 <= i < |urls| ==> es[i] == TagManager.ConfigCmd(ContainerId.GetId(env), pathname(urls[i]))
  {
    seq(|urls|, i requires 0 <= i < |urls| => TagManager.ConfigCmd(ContainerId.GetId(env), pathname(urls[i])))
  }

  /** Navigation pushes one page-view configuration per change the route
      watcher reports, in order, moves the last-seen URL to the final one, and
      touches nothing else: flag, `gtag`, queue, sent events and popup stay. */
  lemma {:induction false} NavigationReconfigures(p: PageState, hrefs: seq<string>, env: Option<string>,
                                                 pathname: string -> string)
    requires p.tag.gtagPresent
    ensures OnMutations(p, hrefs, env, pathname).tag.dataLayer
            == p.tag.dataLayer + ConfigCmds(env, pathname, RouteWatcher.Fired(p.lastUrl, hrefs))
    ensures OnMutations(p, hrefs, env, pathname).tag.sent == p.tag.sent
    ensures OnMutations(p, hrefs, env, pathname).tag.queue == p.tag.queue
    ensures OnMutations(p, hrefs, env, pathname).lastUrl == RouteWatcher.LastSeen(p.lastUrl, hrefs)
    ensures OnMutations(p, hrefs, env, pathname)
            == PageState(p.tag.(dataLayer := p.tag.dataLayer + ConfigCmds(env, pathname, RouteWatcher.Fired(p.lastUrl, hrefs))),
                         RouteWatcher.LastSeen(p.lastUrl, hrefs), p.popupMounted)
    decreases |hrefs|
  {
    if hrefs != [] {
      var q := OnMutation(p, hrefs[0], env, pathname);
      NavigationReconfigures(q, hrefs[1..], env, pathname);
      var st := RouteWatcher.Observe(p.lastUrl, hrefs[0]);
      var head := if st.fired.Some? then [hrefs[0]] else [];
      var rest := RouteWatcher.Fired(st.lastUrl, hrefs[1..]);
      assert RouteWatcher.Fired(p.lastUrl, hrefs) == head + rest;
      assert ConfigCmds(env, pathname, head + rest) == ConfigCmds(env, pathname, head) + ConfigCmds(env, pathname, rest);
      assert q.tag.dataLayer == p.tag.dataLayer + ConfigCmds(env, pathname, head);
      if hrefs[1..] != [] {
        assert RouteWatcher.LastSeen(q.lastUrl, hrefs[1..]) == RouteWatcher.LastSeen(p.lastUrl, hrefs);
      }
    }
  }

  /** Navigating from A to a different B pushes exactly one configuration, with
      B's pathname; staying on B afterwards pushes nothing. */
  lemma NavigateThenStay(p: PageState, b: string, env: Option<string>, pathname: string -> string)
    requires p.tag.gtagPresent && p.lastUrl != b
    ensures OnMutation(p, b, env, pathname).tag.dataLayer
            == p.tag.dataLayer + [TagManager.ConfigCmd(ContainerId.GetId(env), pathname(b))]
    ensures OnMutation(OnMutation(p, b, env, pathname), b, env, pathname) == OnMutation(p, b, env, pathname)
  {
  }
}
