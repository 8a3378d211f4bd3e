/**
  The alerting policy of the comments monitor.

  Each invocation observes whether the comments box is on the page, reads the
  value persisted by the previous invocation, alerts only on the transition
  "absent -> present", and then overwrites the persisted value with the
  current observation. The state file is a field of `CommentsMonitor`; the
  alert is returned instead of being sent by mail.
 */
module Monitor {
  import opened Detector

  datatype Option<T> = None | Some(value: T)

  /** A JSON document as the state file may hold it. The program writes only
      `true` or `false`, but whatever the file holds is loaded as is. */
  datatype Json =
    | JNull
    | JBool(b: bool)
    | JNumber(n: int)
    | JString(s: string)
    | JArray(items: seq<Json>)
    | JObject(members: seq<(string, Json)>)

  /** The alert condition `prev is False and now_has_box is True`. The
      previous value is `None` when there is no state file; the test is one
      of identity, so only the boolean `false` itself qualifies. */
  function ShouldAlert(prev: Option<Json>, now: bool): (alert: bool)
    ensures alert <==> prev == Some(JBool(false)) && now
    ensures prev == None ==> !alert
  {
    match prev
    case Some(JBool(b)) => !b && now
    case _ => false
  }

  /** Python's `v == False` on a loaded JSON value: the integer 0 compares
      equal to `False` as well. */
  predicate EqualsFalse(v: Json) {
    v == JBool(false) || v == JNumber(0)
  }

  /** A stored value that merely compares equal to `False` does not trigger
      an alert: equality is not identity. */
  lemma EqualityIsNotIdentity()
    ensures EqualsFalse(JNumber(0)) && !ShouldAlert(Some(JNumber(0)), true)
  {
  }

  /** The persisted value after a sequence of runs that started from `prev`. */
  function StateAfter(prev: Option<Json>, obs: seq<bool>): Option<Json>
  {
    if obs == [] then prev else Some(JBool(obs[|obs| - 1]))
  }

  /** The alerts of a sequence of runs that started from the persisted value
      `prev`, one per observation, the last run seeing the state the earlier
      ones left behind. */
  function AlertsFrom(prev: Option<Json>, obs: seq<bool>): (alerts: seq<bool>)
    ensures |alerts| == |obs|
    decreases |obs|
  {
    if obs == [] then []
    else
      var earlier := obs[..|obs| - 1];
      AlertsFrom(prev, earlier) + [ShouldAlert(StateAfter(prev, earlier), obs[|obs| - 1])]
  }

  /** The alerts of a sequence of runs starting with no state file. */
  function Alerts(obs: seq<bool>): (alerts: seq<bool>)
    ensures |alerts| == |obs|
  {
    AlertsFrom(None, obs)
  }

  /** Stopping after the runs `a` and resuming from the state file they left
      behind is the same as never having stopped: the same final state and
      the same alerts. */
  lemma {:induction false} ResumeIsContinuation(prev: Option<Json>, a: seq<bool>, b: seq<bool>)
    ensures StateAfter(prev, a + b) == StateAfter(StateAfter(prev, a), b)
    ensures AlertsFrom(prev, a + b) == AlertsFrom(prev, a) + AlertsFrom(StateAfter(prev, a), b)
    decreases |b|
  {
    if b == [] {
      assert a + b == a;
    } else {
      var earlier := b[..|b| - 1];
      ResumeIsContinuation(prev, a, earlier);
      assert (a + b)[..|a + b| - 1] == a + earlier;
    }
  }

  /** The alert of run `i`: the first run compares with the starting value,
      every later run with the observation of the run before it. */
  lemma {:induction false} AlertAt(prev: Option<Json>, obs: seq<bool>, i: nat)
    requires i < |obs|
    ensures AlertsFrom(prev, obs)[i] <==>
      if i == 0 then ShouldAlert(prev, obs[0]) else !obs[i - 1] && obs[i]
  {
    var earlier := obs[..|obs| - 1];
    if i < |obs| - 1 {
      AlertAt(prev, earlier, i);
    }
  }

  /** Starting with no state file, alerts happen exactly at the rising edges:
      runs `i > 0` that see the box after run `i - 1` did not. */
  lemma {:induction false} AlertsAreRisingEdges(obs: seq<bool>)
    ensures |Alerts(obs)| == |obs|
    ensures forall i :: 0 <= i < |obs| ==>
      (Alerts(obs)[i] <==> i > 0 && !obs[i - 1] && obs[i])
  {
    forall i | 0 <= i < |obs|
      ensures Alerts(obs)[i] <==> i > 0 && !obs[i - 1] && obs[i]
    {
      AlertAt(None, obs, i);
    }
  }

  /** An alert is never followed directly by another one. */
  lemma {:induction false} NoConsecutiveAlerts(prev: Option<Json>, obs: seq<bool>, i: nat)
    requires i + 1 < |obs|
    ensures AlertsFrom(prev, obs)[i] ==> !AlertsFrom(prev, obs)[i + 1]
  {
    AlertAt(prev, obs, i);
    AlertAt(prev, obs, i + 1);
  }

  /** Repeated runs on an unchanged page alert at most once, and only on the
      first of them; whatever the starting value. */
  lemma {:induction false} SteadyPageAlertsAtMostOnce(prev: Option<Json>, obs: seq<bool>)
    requires forall i :: 0 <= i < |obs| ==> obs[i] == obs[0]
    ensures forall i :: 0 < i < |obs| ==> !AlertsFrom(prev, obs)[i]
  {
    forall i | 0 < i < |obs|
      ensures !AlertsFrom(prev, obs)[i]
    {
      AlertAt(prev, obs, i);
    }
  }

  /** The monitor across invocations. `stored` is the state file (`None` when
      it does not exist); `observed` and `sent` record, for the proof only,
      the observations and alerts of the runs since `initial` was read. */
  class CommentsMonitor {
    var stored: Option<Json>
    ghost const initial: Option<Json>
    ghost var observed: seq<bool>
    ghost var sent: seq<bool>

    ghost predicate Valid()
      reads this
    {
      && stored == StateAfter(initial, observed)
      && sent == AlertsFrom(initial, observed)
    }

    /** A first deployment: no state file yet. */
    constructor ()
      ensures Valid()
      ensures stored == None && initial == None && observed == [] && sent == []
    {
      stored := None;
      initial := None;
      observed := [];
      sent := [];
    }

    /** A deployment that finds `file` as the state file's content. */
    constructor Resume(file: Option<Json>)
      ensures Valid()
      ensures stored == file && initial == file && observed == [] && sent == []
    {
      stored := file;
      initial := file;
      observed := [];
      sent := [];
    }

    /** One invocation given the current observation: load the previous
        value, decide the alert, save the observation unconditionally. */
    method Run(now: bool) returns (alert: bool)
      requires Valid()
      modifies this
      ensures Valid()
      ensures alert <==> old(stored) == Some(JBool(false)) && now
      ensures stored == Some(JBool(now))
      ensures observed == old(observed) + [now] && sent == old(sent) + [alert]
    {
      var prev := stored;
      alert := ShouldAlert(prev, now);
      stored := Some(JBool(now));
      observed := observed + [now];
      sent := sent + [alert];
      assert observed[..|observed| - 1] == old(observed);
    }

    /** For a deployment that started without a state file, every alert sent
        so far was sent exactly at a rising edge of the observations. */
    lemma SentAreRisingEdges()
      requires Valid() && initial == None
      ensures |sent| == |observed|
      ensures forall i :: 0 <= i < |sent| ==>
        (sent[i] <==> i > 0 && !observed[i - 1] && observed[i])
    {
      AlertsAreRisingEdges(observed);
      assert sent == Alerts(observed);
    }

    /** One invocation on a fetched page: detect the box, then `Run`. */
    method Poll(html: string, selectorHit: bool) returns (alert: bool)
      requires Valid()
      modifies this
      ensures Valid()
      ensures alert <==> old(stored) == Some(JBool(false)) && (PatternFound(html) || selectorHit)
      ensures stored == Some(JBool(PatternFound(html) || selectorHit))
      ensures observed == old(observed) + [PatternFound(html) || selectorHit]
      ensures sent == old(sent) + [alert]
    {
      var nowHasBox := PageHasComments(html, selectorHit);
      alert := Run(nowHasBox);
    }
  }

  /** Three invocations of a fresh deployment: a page without the phrase, then
      the phrase in mixed case twice. Only the second invocation alerts. */
  method ThreeRuns() returns (first: bool, second: bool, third: bool)
    ensures !first && second && !third
  {
    var closed := "<p>Not open yet</p>";
    var open := "<h2>Document Comments</h2>";
    NoDocumentNoMatch(closed);
    assert open == "<h2>" + "Document" + " " + "Comments" + "</h2>";
    PhraseIsFound("<h2>", "Document", " ", "Comments", "</h2>");
    var m := new CommentsMonitor();
    first := m.Poll(closed, false);
    second := m.Poll(open, false);
    third := m.Poll(open, false);
  }
}
