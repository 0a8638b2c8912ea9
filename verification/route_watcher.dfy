/** The change detector of the route watcher: on every batch of DOM mutations
    the current URL is compared with the last one seen, and the callback runs
    only when it differs. */
module RouteWatcher {
  import opened Wrappers

  /** The result of one observer callback: the new last-seen URL, and the URL
      handed to the route-change callback, if it ran. */
  datatype Step = Step(lastUrl: string, fired: Option<string>)

  /** One observer callback that finds the page at `url`. */
  function Observe(lastUrl: string, url: string): (r: Step)
    ensures r.lastUrl == url
    ensures r.fired.Some? <==> url != lastUrl
    ensures r.fired.Some? ==> r.fired.value == url
  {
    if url != lastUrl then Step(url, Some(url)) else Step(lastUrl, None)
  }

  /** Observing the same URL twice in a row runs the callback at most once. */
  lemma ObserveRepeatIsSilent(lastUrl: string, url: string)
    ensures Observe(Observe(lastUrl, url).lastUrl, url).fired == None
  {
  }

  /** The URLs handed to the callback while the page is found at `urls` in turn. */
  function Fired(lastUrl: string, urls: seq<string>): seq<string>
    decreases |urls|
  {
    if urls == [] then []
    else
      var st := Observe(lastUrl, urls[0]);
      (if st.fired.Some? then [st.fired.value] else []) + Fired(st.lastUrl, urls[1..])
  }

  /** The last-seen URL after observing `urls` in turn. */
  function LastSeen(lastUrl: string, urls: seq<string>): string
  {
    if urls == [] then lastUrl else urls[|urls| - 1]
  }

  /** Every report is one of the observed URLs, and there are no more reports
      than observations. */
  lemma {:induction false} FiredAreObserved(lastUrl: string, urls: seq<string>)
    ensures |Fired(lastUrl, urls)| <= |urls|
    ensures forall u :: u in Fired(lastUrl, urls) ==> u in urls
    decreases |urls|
  {
    if urls != [] {
      var st := Observe(lastUrl, urls[0]);
      FiredAreObserved(st.lastUrl, urls[1..]);
      assert urls == [urls[0]] + urls[1..];
    }
  }

  /** Each distinct change is reported once: the first report differs from the
      starting URL and no two consecutive reports are equal. */
  lemma {:induction false} FiredHasNoRepeats(lastUrl: string, urls: seq<string>)
    ensures |Fired(lastUrl, urls)| > 0 ==> Fired(lastUrl, urls)[0] != lastUrl
    ensures forall i :: 0 <= i < |Fired(lastUrl, urls)| - 1 ==>
              Fired(lastUrl, urls)[i] != Fired(lastUrl, urls)[i + 1]
    decreases |urls|
  {
    if urls != [] {
      var st := Observe(lastUrl, urls[0]);
      FiredHasNoRepeats(st.lastUrl, urls[1..]);
      var tail := Fired(st.lastUrl, urls[1..]);
      if st.fired.Some? {
        var f := Fired(lastUrl, urls);
        assert f == [urls[0]] + tail;
        forall i | 0 <= i < |f| - 1
          ensures f[i] != f[i + 1]
        {
          if i > 0 {
            assert f[i] == tail[i - 1] && f[i + 1] == tail[i];
          }
        }
      }
    }
  }

  /** The last report, if any, is the page's final URL. */
  lemma {:induction false} FiredEndsAtLastSeen(lastUrl: string, urls: seq<string>)
    ensures |Fired(lastUrl, urls)| > 0 ==>
              Fired(lastUrl, urls)[|Fired(lastUrl, urls)| - 1] == LastSeen(lastUrl, urls)
    decreases |urls|
  {
    if urls != [] {
      var st := Observe(lastUrl, urls[0]);
      var rest := urls[1..];
      FiredEndsAtLastSeen(st.lastUrl, rest);
      var head := if st.fired.Some? then [urls[0]] else [];
      var tail := Fired(st.lastUrl, rest);
      var f := Fired(lastUrl, urls);
      assert f == head + tail;
      if rest != [] {
        assert LastSeen(st.lastUrl, rest) == LastSeen(lastUrl, urls);
        if |tail| > 0 {
          assert f[|f| - 1] == tail[|tail| - 1];
        } else {
          FiredNothingIffUnchanged(st.lastUrl, rest);
          assert rest[|rest| - 1] == urls[0];
        }
      }
    }
  }

  /** The callback never runs exactly when every observed URL is the starting one. */
  lemma {:induction false} FiredNothingIffUnchanged(lastUrl: string, urls: seq<string>)
    ensures Fired(lastUrl, urls) == [] <==> forall i :: 0 <= i < |urls| ==> urls[i] == lastUrl
    decreases |urls|
  {
    if urls != [] {
      FiredNothingIffUnchanged(Observe(lastUrl, urls[0]).lastUrl, urls[1..]);
      if urls[0] == lastUrl {
        assert forall i :: 1 <= i < |urls| ==> urls[i] == urls[1..][i - 1];
      }
    }
  }
}
