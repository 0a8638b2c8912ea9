/** The tag manager's page state: the `dataLayer` message list, the pending-event
    queue of the event bridge, and the calls made to the global `gtag` function. */
module TagManager {
  import opened Wrappers
  import opened Seqs
  import ConsentStore
  import ContainerId

  /** The `analytics_storage` value of a consent command. */
  datatype StorageSetting = Granted | Denied

  /** The `wait_for_update` value of a default-consent command: 0 or `Infinity`. */
  datatype Wait = Zero | Indefinite

  /** The second argument of `gtag('consent', …)`; only the default carries a wait. */
  datatype ConsentKind = Default(wait: Wait) | Update

  /** One message in `dataLayer`. `gtag(...)` pushes its argument list, which
      the first three constructors stand for; `Marker` is a plain `{event: …}`
      object pushed directly. */
  datatype Entry =
    | ConsentCmd(kind: ConsentKind, analyticsStorage: StorageSetting)
    | ConfigCmd(id: string, pagePath: string)
    | EventCmd(action: string)
    | Marker(event: string)

  /** The `action` of an event-description object `{action}`. */
  type Action = string

  /** The page state seen by the event bridge.
      `storage` is the value under the consent key, `queue` the module-level
      pending list, `sent` the actions passed to `gtag('event', …)` in order,
      and `gtagPresent` whether `window.gtag` is defined. */
  datatype State = State(
    storage: Option<string>,
    dataLayer: seq<Entry>,
    queue: seq<Action>,
    sent: seq<Action>,
    gtagPresent: bool)

  /** Some consent command, default or update, sets analytics storage to granted. */
  predicate ConsentGrantedRecorded(dl: seq<Entry>)
  {
    exists i :: 0 <= i < |dl| && dl[i].ConsentCmd? && dl[i].analyticsStorage == Granted
  }

  /** Some consent update sets analytics storage to denied. */
  predicate DeniedUpdateRecorded(dl: seq<Entry>)
  {
    exists i :: 0 <= i < |dl| && dl[i].ConsentCmd? && dl[i].kind.Update? && dl[i].analyticsStorage == Denied
  }

  /** The hard override under which `gtmEvent` drops an event. */
  predicate Dropped(s: State)
  {
    s.storage == Some("false") || DeniedUpdateRecorded(s.dataLayer)
  }

  /** The `dataLayer` messages that `gtag('event', a)` pushes for each action in turn. */
  function EventCmds(actions: seq<Action>): (es: seq<Entry>)
    ensures |es| == |actions|
    ensures forall i :: 0 <= i < |actions| ==> es[i] == EventCmd(actions[i])
  {
    seq(|actions|, i requires 0 <= i < |actions| => EventCmd(actions[i]))
  }

  /** A call of `window.gtag` with message `e`: when the function exists it
      appends `e` to `dataLayer`, and an event is recorded as sent. */
  function Gtag(s: State, e: Entry): (r: State)
    ensures r.storage == s.storage && r.queue == s.queue && r.gtagPresent == s.gtagPresent
    ensures !s.gtagPresent ==> r == s
    ensures s.gtagPresent ==> r.dataLayer == s.dataLayer + [e]
    ensures s.gtagPresent ==> r.sent == s.sent + (if e.EventCmd? then [e.action] else [])
  {
    if s.gtagPresent then
      s.(dataLayer := s.dataLayer + [e],
         sent := if e.EventCmd? then s.sent + [e.action] else s.sent)
    else s
  }

  /** `sendEvent({action})`. */
  function SendEvent(s: State, a: Action): State
  {
    Gtag(s, EventCmd(a))
  }

  /** The flush loop of `gtmEvent`: pop the last pending event and send it,
      until the queue is empty. The pending events go out last-in first. */
  function Drain(s: State): (r: State)
    ensures r.queue == []
    ensures r.storage == s.storage && r.gtagPresent == s.gtagPresent
    ensures s.gtagPresent ==> r.sent == s.sent + Reverse(s.queue)
    ensures s.gtagPresent ==> r.dataLayer == s.dataLayer + EventCmds(Reverse(s.queue))
    ensures !s.gtagPresent ==> r.sent == s.sent && r.dataLayer == s.dataLayer
    decreases |s.queue|
  {
    if |s.queue| == 0 then s
    else
      var n := |s.queue| - 1;
      var rest := s.queue[..n];
      var last := s.queue[n];
      assert s.queue == rest + [last];
      ReverseOfSnoc(rest, last);
      var t := SendEvent(s.(queue := rest), last);
      assert EventCmds([last] + Reverse(rest)) == [EventCmd(last)] + EventCmds(Reverse(rest));
      Drain(t)
  }

  /** `gtmEvent({action: a})`: drop the event under a recorded refusal, hold it
      while no grant is recorded, and otherwise flush the queue and send it. */
  function GtmEvent(s: State, a: Action): (r: State)
    ensures r.storage == s.storage && r.gtagPresent == s.gtagPresent
    ensures |r.dataLayer| >= |s.dataLayer| && r.dataLayer[..|s.dataLayer|] == s.dataLayer
    ensures forall i :: |s.dataLayer| <= i < |r.dataLayer| ==> r.dataLayer[i].EventCmd?
  {
    if Dropped(s) then s
    else if !ConsentGrantedRecorded(s.dataLayer) then s.(queue := s.queue + [a])
    else SendEvent(Drain(s), a)
  }

  /** `gtmEvent` applied to each action in turn. */
  function GtmEvents(s: State, actions: seq<Action>): State
    decreases |actions|
  {
    if actions == [] then s else GtmEvents(GtmEvent(s, actions[0]), actions[1..])
  }

  /** The consent part of `loadGTM`: make `window.gtag` available, record the
      default consent derived from the stored flag, then the `default_consent`
      marker. */
  function LoadGtm(s: State): (r: State)
    ensures r.gtagPresent
    ensures r.storage == s.storage && r.queue == s.queue && r.sent == s.sent
    ensures |r.dataLayer| == |s.dataLayer| + 2
    ensures r.dataLayer[..|s.dataLayer|] == s.dataLayer
    ensures r.dataLayer[|s.dataLayer| + 1] == Marker("default_consent")
    ensures r.dataLayer[|s.dataLayer|] == ConsentCmd(Default(Zero), Granted)
            <==> ConsentStore.CheckHasConsent(s.storage) == ConsentStore.Decided(true)
    ensures r.dataLayer[|s.dataLayer|] == ConsentCmd(Default(Indefinite), Denied)
            <==> ConsentStore.CheckHasConsent(s.storage) != ConsentStore.Decided(true)
  {
    var granted := s.storage == Some("true");
    var default := ConsentCmd(Default(if granted then Zero else Indefinite),
                              if granted then Granted else Denied);
    var t := Gtag(s.(gtagPresent := true), default);
    t.(dataLayer := t.dataLayer + [Marker("default_consent")])
  }

  /** `updateConsent(result)`: persist the decision; when `gtag` exists, record a
      consent update and a page-view configuration for `path`; then emit the
      `updateConsent` event, and on a grant also `cookie_consent_statistics`.
      `env` is the environment descriptor and `path` the current pathname. */
  function UpdateConsent(s: State, result: bool, env: Option<string>, path: string): (r: State)
    ensures r.storage == ConsentStore.Store(result)
    ensures r.gtagPresent == s.gtagPresent
  {
    var s1 := s.(storage := ConsentStore.Store(result));
    var s2 :=
      if s1.gtagPresent then
        Gtag(Gtag(s1, ConsentCmd(Update, if result then Granted else Denied)),
             ConfigCmd(ContainerId.GetId(env), path))
      else s1;
    var s3 := GtmEvent(s2, "updateConsent");
    if result then GtmEvent(s3, "cookie_consent_statistics") else s3
  }

  /** `onRouteChange`: when `gtag` exists, reconfigure page-view tracking with
      the new page's pathname. */
  function OnRouteChange(s: State, env: Option<string>, path: string): (r: State)
    ensures r.storage == s.storage && r.queue == s.queue && r.sent == s.sent
    ensures s.gtagPresent ==> r.dataLayer == s.dataLayer + [ConfigCmd(ContainerId.GetId(env), path)]
    ensures !s.gtagPresent ==> r == s
  {
    if s.gtagPresent then Gtag(s, ConfigCmd(ContainerId.GetId(env), path)) else s
  }

  // ---- The event bridge's behaviour ----

  /** Appending event messages never records or retracts a consent decision. */
  lemma {:induction false} EventCmdsKeepConsent(dl: seq<Entry>, es: seq<Entry>)
    requires forall i :: 0 <= i < |es| ==> es[i].EventCmd?
    ensures ConsentGrantedRecorded(dl + es) <==> ConsentGrantedRecorded(dl)
    ensures DeniedUpdateRecorded(dl + es) <==> DeniedUpdateRecorded(dl)
  {
    var d := dl + es;
    if ConsentGrantedRecorded(d) {
      var i :| 0 <= i < |d| && d[i].ConsentCmd? && d[i].analyticsStorage == Granted;
      assert dl[i] == d[i];
    }
    if ConsentGrantedRecorded(dl) {
      var i :| 0 <= i < |dl| && dl[i].ConsentCmd? && dl[i].analyticsStorage == Granted;
      assert d[i] == dl[i];
    }
    if DeniedUpdateRecorded(d) {
      var i :| 0 <= i < |d| && d[i].ConsentCmd? && d[i].kind.Update? && d[i].analyticsStorage == Denied;
      assert dl[i] == d[i];
    }
    if DeniedUpdateRecorded(dl) {
      var i :| 0 <= i < |dl| && dl[i].ConsentCmd? && dl[i].kind.Update? && dl[i].analyticsStorage == Denied;
      assert d[i] == dl[i];
    }
  }

  /** `gtmEvent` neither records nor retracts a consent decision. */
  lemma GtmEventKeepsConsent(s: State, a: Action)
    ensures ConsentGrantedRecorded(GtmEvent(s, a).dataLayer) <==> ConsentGrantedRecorded(s.dataLayer)
    ensures Dropped(GtmEvent(s, a)) <==> Dropped(s)
  {
    var r := GtmEvent(s, a);
    var n := |s.dataLayer|;
    assert r.dataLayer == s.dataLayer + r.dataLayer[n..];
    EventCmdsKeepConsent(s.dataLayer, r.dataLayer[n..]);
  }

  /** Under a stored refusal or a recorded denied update the event is dropped:
      nothing is queued, sent or recorded. */
  lemma GtmEventDropped(s: State, a: Action)
    requires s.storage == Some("false") || DeniedUpdateRecorded(s.dataLayer)
    ensures GtmEvent(s, a) == s
  {
  }

  /** Without a recorded grant the event joins the end of the queue and nothing
      is sent. */
  lemma GtmEventHeld(s: State, a: Action)
    requires !Dropped(s) && !ConsentGrantedRecorded(s.dataLayer)
    ensures GtmEvent(s, a).queue == s.queue + [a]
    ensures GtmEvent(s, a).sent == s.sent
    ensures GtmEvent(s, a).dataLayer == s.dataLayer
  {
  }

  /** With a recorded grant the queue is emptied; when `gtag` exists the pending
      events go out newest first and then the new event, otherwise nothing goes out. */
  lemma GtmEventFlushes(s: State, a: Action)
    requires !Dropped(s) && ConsentGrantedRecorded(s.dataLayer)
    ensures GtmEvent(s, a).queue == []
    ensures s.gtagPresent ==> GtmEvent(s, a).sent == s.sent + Reverse(s.queue) + [a]
    ensures !s.gtagPresent ==> GtmEvent(s, a).sent == s.sent
  {
  }

  /** When `gtag` exists, an event that is not dropped is never lost: it and
      every earlier event are pending or sent, each exactly once. */
  lemma GtmEventConserves(s: State, a: Action)
    requires s.gtagPresent && !Dropped(s)
    ensures multiset(GtmEvent(s, a).queue) + multiset(GtmEvent(s, a).sent)
            == multiset(s.queue) + multiset(s.sent) + multiset{a}
  {
    if ConsentGrantedRecorded(s.dataLayer) {
      ReversePermutes(s.queue);
    }
  }

  /** Once the flag reads "false", every later event is dropped. */
  lemma {:induction false} DeclinedDropsAll(s: State, actions: seq<Action>)
    requires s.storage == Some("false")
    ensures GtmEvents(s, actions) == s
  {
    if actions != [] {
      DeclinedDropsAll(GtmEvent(s, actions[0]), actions[1..]);
    }
  }

  /** Until a grant is recorded, every event is held, in arrival order. */
  lemma {:induction false} HeldWhileUndecided(s: State, actions: seq<Action>)
    requires !Dropped(s) && !ConsentGrantedRecorded(s.dataLayer)
    ensures GtmEvents(s, actions) == s.(queue := s.queue + actions)
    decreases |actions|
  {
    if actions != [] {
      var t := GtmEvent(s, actions[0]);
      assert t == s.(queue := s.queue + [actions[0]]);
      HeldWhileUndecided(t, actions[1..]);
      assert s.queue + [actions[0]] + actions[1..] == s.queue + actions;
    }
  }

  /** After a flush under a recorded grant, every event is sent at once, in
      arrival order. */
  lemma {:induction false} SentOnceGranted(s: State, actions: seq<Action>)
    requires s.gtagPresent && s.queue == []
    requires !Dropped(s) && ConsentGrantedRecorded(s.dataLayer)
    ensures GtmEvents(s, actions).queue == []
    ensures GtmEvents(s, actions).sent == s.sent + actions
    decreases |actions|
  {
    if actions != [] {
      var t := GtmEvent(s, actions[0]);
      GtmEventKeepsConsent(s, actions[0]);
      GtmEventFlushes(s, actions[0]);
      assert Reverse(s.queue) == [];
      assert t.sent == s.sent + [actions[0]] && t.queue == [] && t.gtagPresent;
      SentOnceGranted(t, actions[1..]);
      assert s.sent + [actions[0]] + actions[1..] == s.sent + actions;
    }
  }

  // ---- The consent decision ----

  /** Declining stores "false", records a denied update when `gtag` exists, and
      drops the one follow-up `updateConsent` event: the queue and the sent
      events are untouched. */
  lemma UpdateConsentDecline(s: State, env: Option<string>, path: string)
    ensures UpdateConsent(s, false, env, path).queue == s.queue
    ensures UpdateConsent(s, false, env, path).sent == s.sent
    ensures ConsentStore.CheckHasConsent(UpdateConsent(s, false, env, path).storage)
            == ConsentStore.Decided(false)
    ensures s.gtagPresent ==>
              UpdateConsent(s, false, env, path).dataLayer
              == s.dataLayer + [ConsentCmd(Update, Denied), ConfigCmd(ContainerId.GetId(env), path)]
    ensures Dropped(UpdateConsent(s, false, env, path))
  {
  }

  /** Accepting with `gtag` present records a granted update and the page-view
      configuration, then sends the flushed queue newest first, then
      `updateConsent`, then `cookie_consent_statistics`. */
  lemma UpdateConsentAccept(s: State, env: Option<string>, path: string)
    requires s.gtagPresent && !DeniedUpdateRecorded(s.dataLayer)
    ensures UpdateConsent(s, true, env, path).queue == []
    ensures UpdateConsent(s, true, env, path).sent
            == s.sent + Reverse(s.queue) + ["updateConsent", "cookie_consent_statistics"]
    ensures ConsentStore.CheckHasConsent(UpdateConsent(s, true, env, path).storage)
            == ConsentStore.Decided(true)
    ensures |UpdateConsent(s, true, env, path).dataLayer| >= |s.dataLayer| + 2
    ensures UpdateConsent(s, true, env, path).dataLayer[..|s.dataLayer| + 2]
            == s.dataLayer + [ConsentCmd(Update, Granted), ConfigCmd(ContainerId.GetId(env), path)]
  {
    var s1 := s.(storage := ConsentStore.Store(true));
    var s2 := Gtag(Gtag(s1, ConsentCmd(Update, Granted)), ConfigCmd(ContainerId.GetId(env), path));
    assert s2.dataLayer[|s.dataLayer|] == ConsentCmd(Update, Granted);
    assert ConsentGrantedRecorded(s2.dataLayer);
    assert !DeniedUpdateRecorded(s2.dataLayer) by {
      assert s2.dataLayer == s.dataLayer + [ConsentCmd(Update, Granted), ConfigCmd(ContainerId.GetId(env), path)];
    }
    var s3 := GtmEvent(s2, "updateConsent");
    GtmEventKeepsConsent(s2, "updateConsent");
    assert s3.queue == [] && s3.sent == s.sent + Reverse(s.queue) + ["updateConsent"];
    var r := GtmEvent(s3, "cookie_consent_statistics");
    var n := |s2.dataLayer|;
    assert n == |s.dataLayer| + 2;
    assert s3.dataLayer[..n] == s2.dataLayer;
    assert r.dataLayer[..|s3.dataLayer|] == s3.dataLayer;
    assert r.dataLayer[..n] == s3.dataLayer[..n];
  }

  /** Accepting before `gtag` exists records nothing: with no earlier decision
      both follow-up events are held behind the pending ones. */
  lemma UpdateConsentAcceptWithoutGtag(s: State, env: Option<string>, path: string)
    requires !s.gtagPresent
    requires !DeniedUpdateRecorded(s.dataLayer) && !ConsentGrantedRecorded(s.dataLayer)
    ensures UpdateConsent(s, true, env, path).queue
            == s.queue + ["updateConsent", "cookie_consent_statistics"]
    ensures UpdateConsent(s, true, env, path).sent == s.sent
    ensures UpdateConsent(s, true, env, path).dataLayer == s.dataLayer
  {
  }
}
