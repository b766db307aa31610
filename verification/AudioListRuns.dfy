/** The one audio list is a row of streams in front of a row of prompts, whatever is opened and closed. */
module AudioListRuns {
  import opened AudioList

  /**
   * A stream or prompt is opened; one is closed, at the head of the list on a request of its own and at the tail when
   * another is opened over it; an id is taken off; all is closed.
   */
  datatype Request = OpenEntry(e: Entry) | CloseId(id: Id, pos: Position) | TakeOff(id: Id) | CloseAll

  /** The list, or an open found the pool empty; what comes after that is not described. */
  datatype Listing = Intact(l: seq<Entry>) | Broken

  function After(aiVoice: bool, l: seq<Entry>, r: Request): Listing {
    match r
    case OpenEntry(e) =>
      var o := Append(aiVoice, POOL_SIZE, l, e);
      if o.NoBlock? then Broken else Intact(o.l)
    case CloseId(id, pos) => Intact(Close(aiVoice, l, id, pos))
    case TakeOff(id) => Intact(Without(l, FirstOf(l, id)))
    case CloseAll => Intact([])
  }

  // ---- Two parts ----

  datatype Two = Two(streams: seq<Entry>, prompts: seq<Entry>)

  predicate NoPrompts(s: seq<Entry>) {
    forall i | 0 <= i < |s| :: !IsPrompt(s[i])
  }

  predicate AllPrompts(p: seq<Entry>) {
    forall i | 0 <= i < |p| :: IsPrompt(p[i])
  }

  predicate Sorted(t: Two) {
    NoPrompts(t.streams) && AllPrompts(t.prompts)
  }

  predicate Refused(t: Two, e: Entry) {
    if e.incomingCall then RingExists(t.prompts) else Size(t) >= 3
  }

  function Size(t: Two): nat {
    |t.streams| + |t.prompts|
  }

  predicate Full(t: Two) {
    t.prompts != [] && Size(t) >= MAX_AUDIO_BUF_LIST
  }

  /** A request that needs a block while none is free: on a full list, unless that is cleared first. */
  predicate Exhausts(aiVoice: bool, t: Two, r: Request) {
    && r.OpenEntry? && Size(t) >= POOL_SIZE
    && (IsPrompt(r.e) ==> !Refused(t, r.e) && (t.prompts == [] || StreamExists(aiVoice, t.streams)))
  }

  /** A prompt joins the queue; a full list, without a stream in it, is cleared first. */
  function Queue(t: Two, e: Entry): Two {
    if Refused(t, e) then t
    else if Full(t) then Two([], [e])
    else t.(prompts := t.prompts + [e])
  }

  /**
   * A close request for a stream takes the first or the last entry of the whole list, whichever it is; AI voice is
   * found among the streams.
   */
  function CloseStream(aiVoice: bool, t: Two, id: Id, pos: Position): Two {
    var s, p := t.streams, t.prompts;
    if !StreamExists(aiVoice, s) then t
    else if aiVoice && id == AiVoice then
      if LastOf(s, AiVoice) >= 0 then Two(Without(s, LastOf(s, AiVoice)), p) else t
    else if pos == Head then Two(s[1..], p)
    else if p != [] then Two(s, p[..|p| - 1])
    else Two(s[..|s| - 1], p)
  }

  function Rest(p: seq<Entry>): seq<Entry> {
    if p == [] then [] else p[1..]
  }

  function Step(aiVoice: bool, t: Two, r: Request): Two {
    match r
    case OpenEntry(e) => if IsPrompt(e) then Queue(t, e) else t.(streams := [e] + t.streams)
    case CloseId(id, pos) =>
      if id == PlayBack then t.(prompts := Rest(t.prompts)) else CloseStream(aiVoice, t, id, pos)
    case TakeOff(id) =>
      if id == PlayBack then t.(prompts := Rest(t.prompts))
      else t.(streams := Without(t.streams, FirstOf(t.streams, id)))
    case CloseAll => Two([], [])
  }

  // ---- The list is the two parts, one behind the other ----

  lemma {:induction false} FirstOfPrompts(p: seq<Entry>, id: Id)
    requires AllPrompts(p)
    ensures FirstOf(p, id) == if id == PlayBack then 0 else |p|
  {
    if p != [] && id != PlayBack {
      assert p[0].id != id;
      FirstOfPrompts(p[1..], id);
    }
  }

  lemma {:induction false} FirstOfBoth(s: seq<Entry>, p: seq<Entry>, id: Id)
    requires AllPrompts(p) && (id == PlayBack ==> NoPrompts(s))
    ensures FirstOf(s + p, id) ==
            if FirstOf(s, id) < |s| then FirstOf(s, id) else if id == PlayBack then |s| else |s| + |p|
    decreases |s|
  {
    if s == [] {
      assert s + p == p;
      FirstOfPrompts(p, id);
    } else {
      assert (s + p)[1..] == s[1..] + p && (s + p)[0] == s[0];
      FirstOfBoth(s[1..], p, id);
    }
  }

  lemma {:induction false} LastOfBoth(s: seq<Entry>, p: seq<Entry>, id: Id)
    requires AllPrompts(p) && id != PlayBack
    ensures LastOf(s + p, id) == LastOf(s, id)
    decreases |p|
  {
    if p == [] {
      assert s + p == s;
    } else {
      assert (s + p)[..|s + p| - 1] == s + p[..|p| - 1];
      LastOfBoth(s, p[..|p| - 1], id);
    }
  }

  lemma WithoutInFront(s: seq<Entry>, p: seq<Entry>, k: nat)
    requires k < |s|
    ensures Without(s + p, k) == Without(s, k) + p
  {
    assert (s + p)[k + 1..] == s[k + 1..] + p && (s + p)[..k] == s[..k];
    assert s[..k] + (s[k + 1..] + p) == (s[..k] + s[k + 1..]) + p;
  }

  lemma WithoutFirst(s: seq<Entry>, p: seq<Entry>)
    ensures Without(s + p, |s|) == s + Rest(p)
    ensures Without(s + p, |s| + |p|) == s + p
  {
  }

  /** What the list's searches find in the two parts. */
  lemma FoundInParts(aiVoice: bool, s: seq<Entry>, p: seq<Entry>)
    requires NoPrompts(s) && AllPrompts(p)
    ensures StreamExists(aiVoice, s + p) <==> StreamExists(aiVoice, s)
    ensures PlaybackExists(s + p) <==> p != []
    ensures RingExists(s + p) <==> RingExists(p)
  {
    if StreamExists(aiVoice, s) {
      var i :| 0 <= i < |s| && IsStream(aiVoice, s[i]);
      assert (s + p)[i] == s[i];
    }
    if p != [] {
      assert (s + p)[|s|] == p[0];
    }
    if RingExists(p) {
      var i :| 0 <= i < |p| && IsPrompt(p[i]) && p[i].incomingCall;
      assert (s + p)[|s| + i] == p[i];
    }
  }

  /** The list of two parts, unless a request has broken it. */
  function Joined(broken: bool, t: Two): Listing {
    if broken then Broken else Intact(t.streams + t.prompts)
  }

  lemma OpenRefines(aiVoice: bool, t: Two, e: Entry)
    requires Sorted(t)
    ensures var r := OpenEntry(e);
      After(aiVoice, t.streams + t.prompts, r) == Joined(Exhausts(aiVoice, t, r), Step(aiVoice, t, r))
  {
    FoundInParts(aiVoice, t.streams, t.prompts);
    if IsPrompt(e) {
      assert t.streams + t.prompts + [e] == t.streams + (t.prompts + [e]);
    } else {
      assert [e] + (t.streams + t.prompts) == ([e] + t.streams) + t.prompts;
    }
  }

  lemma PromptTakenRefines(aiVoice: bool, t: Two, r: Request)
    requires Sorted(t) && (r.CloseId? || r.TakeOff?) && r.id == PlayBack
    ensures After(aiVoice, t.streams + t.prompts, r) == Intact(t.streams + Rest(t.prompts))
  {
    FirstOfBoth(t.streams, t.prompts, PlayBack);
    assert FirstOf(t.streams, PlayBack) == |t.streams|;
    WithoutFirst(t.streams, t.prompts);
  }

  lemma EndsTaken(s: seq<Entry>, p: seq<Entry>)
    requires s != []
    ensures Without(s + p, 0) == s[1..] + p
    ensures p != [] ==> Without(s + p, |s + p| - 1) == s + p[..|p| - 1]
    ensures p == [] ==> Without(s + p, |s + p| - 1) == s[..|s| - 1] + p
  {
  }

  lemma AiVoiceClosedRefines(t: Two, pos: Position)
    requires Sorted(t) && StreamExists(true, t.streams)
    ensures var t' := CloseStream(true, t, AiVoice, pos);
      Close(true, t.streams + t.prompts, AiVoice, pos) == t'.streams + t'.prompts
  {
    var s, p := t.streams, t.prompts;
    FoundInParts(true, s, p);
    LastOfBoth(s, p, AiVoice);
    if LastOf(s, AiVoice) >= 0 {
      WithoutInFront(s, p, LastOf(s, AiVoice));
    }
  }

  lemma OtherClosedRefines(aiVoice: bool, t: Two, id: Id, pos: Position)
    requires Sorted(t) && StreamExists(aiVoice, t.streams) && id != PlayBack && !(aiVoice && id == AiVoice)
    ensures var t' := CloseStream(aiVoice, t, id, pos);
      Close(aiVoice, t.streams + t.prompts, id, pos) == t'.streams + t'.prompts
  {
    var s, p := t.streams, t.prompts;
    FoundInParts(aiVoice, s, p);
    assert Removed(aiVoice, s + p, id, pos) == if pos == Head then 0 else |s + p| - 1;
    EndsTaken(s, p);
  }

  lemma StreamClosedRefines(aiVoice: bool, t: Two, id: Id, pos: Position)
    requires Sorted(t) && id != PlayBack
    ensures var t' := CloseStream(aiVoice, t, id, pos);
      Close(aiVoice, t.streams + t.prompts, id, pos) == t'.streams + t'.prompts
  {
    if StreamExists(aiVoice, t.streams) && !(aiVoice && id == AiVoice) {
      OtherClosedRefines(aiVoice, t, id, pos);
    } else if StreamExists(aiVoice, t.streams) {
      AiVoiceClosedRefines(t, pos);
    } else {
      FoundInParts(aiVoice, t.streams, t.prompts);
    }
  }

  lemma StreamTakenRefines(aiVoice: bool, t: Two, id: Id)
    requires Sorted(t) && id != PlayBack
    ensures After(aiVoice, t.streams + t.prompts, TakeOff(id))
         == Intact(Without(t.streams, FirstOf(t.streams, id)) + t.prompts)
  {
    FirstOfBoth(t.streams, t.prompts, id);
    if FirstOf(t.streams, id) < |t.streams| {
      WithoutInFront(t.streams, t.prompts, FirstOf(t.streams, id));
    }
  }

  /** One request on the list is that request on the two parts. */
  lemma RequestRefines(aiVoice: bool, t: Two, r: Request)
    requires Sorted(t)
    ensures After(aiVoice, t.streams + t.prompts, r) == Joined(Exhausts(aiVoice, t, r), Step(aiVoice, t, r))
  {
    match r
    case OpenEntry(e) => OpenRefines(aiVoice, t, e);
    case CloseAll =>
    case CloseId(id, pos) =>
      if id == PlayBack {
        PromptTakenRefines(aiVoice, t, r);
      } else {
        StreamClosedRefines(aiVoice, t, id, pos);
      }
    case TakeOff(id) =>
      if id == PlayBack {
        PromptTakenRefines(aiVoice, t, r);
      } else {
        StreamTakenRefines(aiVoice, t, id);
      }
  }

  lemma StepKeepsSorted(aiVoice: bool, t: Two, r: Request)
    requires Sorted(t)
    ensures Sorted(Step(aiVoice, t, r))
  {
  }

  // ---- The limits ----

  function Rings(p: seq<Entry>): (n: nat)
    ensures n <= |p|
  {
    if p == [] then 0 else Rings(p[..|p| - 1]) + if p[|p| - 1].incomingCall then 1 else 0
  }

  /** At most one ring and at most three other prompts. */
  predicate Limited(p: seq<Entry>) {
    Rings(p) <= 1 && |p| - Rings(p) <= 3
  }

  lemma {:induction false} NoRingNoCount(p: seq<Entry>)
    requires AllPrompts(p) && !RingExists(p)
    ensures Rings(p) == 0
    decreases |p|
  {
    if p != [] {
      assert !p[|p| - 1].incomingCall;
      var front := p[..|p| - 1];
      forall i | 0 <= i < |front|
        ensures !(IsPrompt(front[i]) && front[i].incomingCall)
      {
        assert front[i] == p[i];
      }
      NoRingNoCount(front);
    }
  }

  lemma RingsOfMore(p: seq<Entry>, e: Entry)
    ensures Rings(p + [e]) == Rings(p) + if e.incomingCall then 1 else 0
  {
    assert (p + [e])[..|p|] == p;
  }

  lemma {:induction false} RingsOfRest(p: seq<Entry>)
    requires p != []
    ensures Rings(p[1..]) <= Rings(p) && |p[1..]| - Rings(p[1..]) <= |p| - Rings(p)
    decreases |p|
  {
    var n := |p| - 1;
    if n > 0 {
      RingsOfRest(p[..n]);
      assert p[1..][..n - 1] == p[..n][1..];
    }
  }

  lemma StepKeepsLimits(aiVoice: bool, t: Two, r: Request)
    requires Sorted(t) && Limited(t.prompts)
    ensures Limited(Step(aiVoice, t, r).prompts)
  {
    if r.OpenEntry? {
      RingsOfMore(t.prompts, r.e);
      RingsOfMore([], r.e);
      assert [] + [r.e] == [r.e];
      if !RingExists(t.prompts) {
        NoRingNoCount(t.prompts);
      }
    } else if t.prompts != [] {
      RingsOfRest(t.prompts);
    }
  }

  // ---- What comes and goes ----

  /** The prompt a request brings into the queue. */
  function Came(t: Two, r: Request): seq<Entry> {
    if r.OpenEntry? && IsPrompt(r.e) && !Refused(t, r.e) then [r.e] else []
  }

  /** The request clears the list: all is closed, or a prompt finds it full. */
  predicate Clears(t: Two, r: Request) {
    r.CloseAll? || (r.OpenEntry? && IsPrompt(r.e) && !Refused(t, r.e) && Full(t))
  }

  /** A stream's close request at the tail meets a prompt there: it takes the one that came last. */
  predicate TakesYoungest(aiVoice: bool, t: Two, r: Request) {
    && r.CloseId? && r.pos == Tail && r.id != PlayBack && !(aiVoice && r.id == AiVoice)
    && StreamExists(aiVoice, t.streams) && t.prompts != []
  }

  /** The prompts a request takes off: all when it clears the list, else the oldest, else perhaps the youngest. */
  function Went(aiVoice: bool, t: Two, r: Request): seq<Entry> {
    if Clears(t, r) then t.prompts
    else if (r.CloseId? || r.TakeOff?) && r.id == PlayBack then t.prompts[..|t.prompts| - |Rest(t.prompts)|]
    else if TakesYoungest(aiVoice, t, r) then t.prompts[|t.prompts| - 1..]
    else []
  }

  /** Closing a stream leaves the prompts alone exactly when it does not meet one at the tail. */
  lemma CloseStreamKeepsPromptsIff(aiVoice: bool, t: Two, id: Id, pos: Position)
    requires id != PlayBack
    ensures Step(aiVoice, t, CloseId(id, pos)).prompts == t.prompts <==> !TakesYoungest(aiVoice, t, CloseId(id, pos))
  {
  }

  predicate Splits(whole: seq<Entry>, went: seq<Entry>, rest: seq<Entry>) {
    whole == went + rest
  }

  /** The prompts that stay and come are those that were there and come, with some taken from the front. */
  ghost predicate KeepsQueue(aiVoice: bool, t: Two, r: Request) {
    exists went :: Splits(t.prompts + Came(t, r), went, Step(aiVoice, t, r).prompts)
  }

  lemma StepIsQueue(aiVoice: bool, t: Two, r: Request)
    requires !TakesYoungest(aiVoice, t, r)
    ensures t.prompts + Came(t, r) == Went(aiVoice, t, r) + Step(aiVoice, t, r).prompts
  {
  }

  predicate AllAlike(p: seq<Entry>) {
    forall i | 0 < i < |p| :: p[i] == p[i - 1]
  }

  /** All but the last are what is left of a queue only when all are alike. */
  lemma ShiftedIff(p: seq<Entry>, front: seq<Entry>)
    requires p != [] && front == p[..|p| - 1]
    ensures (exists went :: Splits(p, went, front)) <==> AllAlike(p)
  {
    if AllAlike(p) {
      assert p == [p[0]] + front;
      assert Splits(p, [p[0]], front);
    }
    if went :| Splits(p, went, front) {
      forall i | 0 < i < |p|
        ensures p[i] == p[i - 1]
      {
        assert p[i] == (went + front)[i] == front[i - 1];
      }
    }
  }

  /** A request keeps the prompts in the order of a queue exactly unless it takes the youngest of prompts that differ. */
  lemma KeepsQueueIff(aiVoice: bool, t: Two, r: Request)
    ensures KeepsQueue(aiVoice, t, r) <==> !(TakesYoungest(aiVoice, t, r) && !AllAlike(t.prompts))
  {
    if TakesYoungest(aiVoice, t, r) {
      ShiftedIff(t.prompts, t.prompts[..|t.prompts| - 1]);
      assert t.prompts + Came(t, r) == t.prompts;
      assert Step(aiVoice, t, r).prompts == t.prompts[..|t.prompts| - 1];
    } else {
      StepIsQueue(aiVoice, t, r);
      assert Splits(t.prompts + Came(t, r), Went(aiVoice, t, r), Step(aiVoice, t, r).prompts);
    }
  }

  /** In any case no prompt is lost from sight: those there and those coming are those gone and those staying. */
  lemma StepConserves(aiVoice: bool, t: Two, r: Request)
    ensures multiset(t.prompts) + multiset(Came(t, r))
         == multiset(Went(aiVoice, t, r)) + multiset(Step(aiVoice, t, r).prompts)
  {
    var p := t.prompts;
    if TakesYoungest(aiVoice, t, r) {
      assert p == p[..|p| - 1] + p[|p| - 1..];
    } else {
      StepIsQueue(aiVoice, t, r);
      assert multiset(p + Came(t, r)) == multiset(Went(aiVoice, t, r) + Step(aiVoice, t, r).prompts);
    }
  }

  /** A request keeps the list within the pool, which has a block for every entry. */
  lemma StepKeepsSize(aiVoice: bool, t: Two, r: Request)
    requires Size(t) <= POOL_SIZE && !Exhausts(aiVoice, t, r)
    ensures Size(Step(aiVoice, t, r)) <= POOL_SIZE
  {
  }

  /** Only the ring of an incoming call ever finds the list full; any other prompt is refused long before. */
  lemma FullNeedsRing(t: Two, r: Request)
    requires Clears(t, r) && r.OpenEntry?
    ensures r.e.incomingCall && !RingExists(t.prompts)
  {
  }

  // ---- Whole runs ----

  /** The list after a sequence of requests. */
  function Run(aiVoice: bool, rs: seq<Request>): Listing {
    if rs == [] then Intact([]) else
    var before := Run(aiVoice, rs[..|rs| - 1]);
    if before.Broken? then Broken else After(aiVoice, before.l, rs[|rs| - 1])
  }

  /** Whether an open found the pool empty; if not, the two parts and the prompts that came and went in their order. */
  datatype History = History(broken: bool, now: Two, came: seq<Entry>, went: seq<Entry>)

  function RunTwo(aiVoice: bool, rs: seq<Request>): History {
    if rs == [] then History(false, Two([], []), [], []) else
    var h, r := RunTwo(aiVoice, rs[..|rs| - 1]), rs[|rs| - 1];
    History(h.broken || Exhausts(aiVoice, h.now, r), Step(aiVoice, h.now, r),
            h.came + Came(h.now, r), h.went + Went(aiVoice, h.now, r))
  }

  lemma CountsAddUp(came: multiset<Entry>, went: multiset<Entry>, now: multiset<Entry>, more: multiset<Entry>,
                    gone: multiset<Entry>, next: multiset<Entry>)
    requires came == went + now && now + more == gone + next
    ensures came + more == went + gone + next
  {
    forall e: Entry
      ensures (came + more)[e] == (went + gone + next)[e]
    {
      assert (now + more)[e] == (gone + next)[e];
    }
  }

  /** Every prompt that came has gone or is there. */
  lemma {:induction false} PromptsAreConserved(aiVoice: bool, rs: seq<Request>)
    ensures var h := RunTwo(aiVoice, rs); multiset(h.came) == multiset(h.went) + multiset(h.now.prompts)
    decreases |rs|
  {
    if rs != [] {
      var h, r := RunTwo(aiVoice, rs[..|rs| - 1]), rs[|rs| - 1];
      PromptsAreConserved(aiVoice, rs[..|rs| - 1]);
      StepConserves(aiVoice, h.now, r);
      CountsAddUp(multiset(h.came), multiset(h.went), multiset(h.now.prompts), multiset(Came(h.now, r)),
                  multiset(Went(aiVoice, h.now, r)), multiset(Step(aiVoice, h.now, r).prompts));
    }
  }

  /**
   * In every reachable state the list is the streams and then the prompts, the prompts within their limits and all
   * within the pool, until some open needs a block on a full list.
   */
  lemma {:induction false} RunIsStreamsThenPrompts(aiVoice: bool, rs: seq<Request>)
    ensures var h := RunTwo(aiVoice, rs);
      && Run(aiVoice, rs) == Joined(h.broken, h.now)
      && Sorted(h.now) && Limited(h.now.prompts) && (!h.broken ==> Size(h.now) <= POOL_SIZE)
    decreases |rs|
  {
    if rs != [] {
      var h, r := RunTwo(aiVoice, rs[..|rs| - 1]), rs[|rs| - 1];
      RunIsStreamsThenPrompts(aiVoice, rs[..|rs| - 1]);
      RequestRefines(aiVoice, h.now, r);
      StepKeepsSorted(aiVoice, h.now, r);
      StepKeepsLimits(aiVoice, h.now, r);
      if !h.broken && !Exhausts(aiVoice, h.now, r) {
        StepKeepsSize(aiVoice, h.now, r);
      }
    }
  }

  /** No request of the run takes the youngest prompt. */
  predicate QueueRun(aiVoice: bool, rs: seq<Request>) {
    rs != [] ==>
      && QueueRun(aiVoice, rs[..|rs| - 1])
      && !TakesYoungest(aiVoice, RunTwo(aiVoice, rs[..|rs| - 1]).now, rs[|rs| - 1])
  }

  /** Then the prompts have left in the order they came. */
  lemma {:induction false} PromptsLeaveInOrder(aiVoice: bool, rs: seq<Request>)
    requires QueueRun(aiVoice, rs)
    ensures var h := RunTwo(aiVoice, rs); h.came == h.went + h.now.prompts
    decreases |rs|
  {
    if rs != [] {
      var h, r := RunTwo(aiVoice, rs[..|rs| - 1]), rs[|rs| - 1];
      PromptsLeaveInOrder(aiVoice, rs[..|rs| - 1]);
      StepIsQueue(aiVoice, h.now, r);
      Conserved(h.came, h.went, h.now.prompts, Came(h.now, r), Went(aiVoice, h.now, r),
                Step(aiVoice, h.now, r).prompts);
    }
  }

  lemma Conserved<T>(came: seq<T>, went: seq<T>, now: seq<T>, more: seq<T>, gone: seq<T>, next: seq<T>)
    requires came == went + now && now + more == gone + next
    ensures came + more == (went + gone) + next
  {
    assert came + more == went + (now + more);
  }

  /** The same said of any two places of the list. */
  lemma StreamsBeforePrompts(aiVoice: bool, rs: seq<Request>, i: nat, j: nat)
    requires Run(aiVoice, rs).Intact?
    requires i < j < |Run(aiVoice, rs).l| && IsPrompt(Run(aiVoice, rs).l[i])
    ensures IsPrompt(Run(aiVoice, rs).l[j])
  {
    RunIsStreamsThenPrompts(aiVoice, rs);
  }

  /** Closing a stream at the head of the list never takes a prompt off it. */
  lemma CloseAtHeadKeepsPrompts(aiVoice: bool, rs: seq<Request>, id: Id)
    requires id != PlayBack && Run(aiVoice, rs).Intact?
    ensures var t := RunTwo(aiVoice, rs).now;
      Run(aiVoice, rs + [CloseId(id, Head)]) == Intact(CloseStream(aiVoice, t, id, Head).streams + t.prompts)
  {
    RunIsStreamsThenPrompts(aiVoice, rs);
    assert (rs + [CloseId(id, Head)])[..|rs|] == rs;
    StreamClosedRefines(aiVoice, RunTwo(aiVoice, rs).now, id, Head);
  }

  /** It takes the top stream whatever it names: the right one if and only if the named one is on top. */
  lemma CloseTakesNamedIff(aiVoice: bool, l: seq<Entry>, id: Id)
    requires id != PlayBack && !(aiVoice && id == AiVoice) && StreamExists(aiVoice, l)
    ensures Removed(aiVoice, l, id, Head) == FirstOf(l, id) <==> l[0].id == id
  {
  }

  /** What is opened after a prompt ends is the next one in line, as long as there is one. */
  lemma NextPromptInLine(aiVoice: bool, rs: seq<Request>, pos: Position, music: bool)
    requires Run(aiVoice, rs).Intact? && |RunTwo(aiVoice, rs).now.prompts| >= 2
    ensures NextAfterClose(aiVoice, Run(aiVoice, rs).l, PlayBack, pos, music)
         == Listed(RunTwo(aiVoice, rs).now.prompts[1])
  {
    RunIsStreamsThenPrompts(aiVoice, rs);
    var t := RunTwo(aiVoice, rs).now;
    PromptTakenRefines(aiVoice, t, CloseId(PlayBack, pos));
    FirstOfBoth(t.streams, Rest(t.prompts), PlayBack);
    assert FirstOf(t.streams, PlayBack) == |t.streams|;
  }

  lemma FirstIs(s: seq<Entry>, id: Id, k: nat)
    requires k < |s| && s[k].id == id && forall i | 0 <= i < k :: s[i].id != id
    ensures FirstOf(s, id) == k
  {
  }

  lemma FrontIsNext(s: seq<Entry>, music: bool)
    requires FirstOf(s, PlayBack) == |s| && forall i | 0 <= i < |s| :: s[i].id != A2dpSbc
    ensures NextAfterPrompt(s, music) == if s != [] then Listed(s[0]) else if music then UnlistedMusic else Nothing
  {
  }

  /** After the last prompt the first A2DP SBC stream is opened, wherever it is listed. */
  lemma MusicAfterLastPrompt(aiVoice: bool, rs: seq<Request>, pos: Position, music: bool, k: nat)
    requires Run(aiVoice, rs).Intact? && |RunTwo(aiVoice, rs).now.prompts| <= 1
    requires var s := RunTwo(aiVoice, rs).now.streams;
      k < |s| && s[k].id == A2dpSbc && forall i | 0 <= i < k :: s[i].id != A2dpSbc
    ensures NextAfterClose(aiVoice, Run(aiVoice, rs).l, PlayBack, pos, music)
         == Listed(RunTwo(aiVoice, rs).now.streams[k])
  {
    OnlyStreamsLeft(aiVoice, rs, pos);
    FirstIs(RunTwo(aiVoice, rs).now.streams, A2dpSbc, k);
  }

  /** Without one it is the front entry, and without any entry left unlisted music if that is active. */
  lemma OtherAfterLastPrompt(aiVoice: bool, rs: seq<Request>, pos: Position, music: bool)
    requires Run(aiVoice, rs).Intact? && |RunTwo(aiVoice, rs).now.prompts| <= 1
    requires forall i | 0 <= i < |RunTwo(aiVoice, rs).now.streams| :: RunTwo(aiVoice, rs).now.streams[i].id != A2dpSbc
    ensures var t := RunTwo(aiVoice, rs).now;
      NextAfterClose(aiVoice, Run(aiVoice, rs).l, PlayBack, pos, music) ==
      if t.streams != [] then Listed(t.streams[0]) else if t.prompts != [] && music then UnlistedMusic else Nothing
  {
    OnlyStreamsLeft(aiVoice, rs, pos);
    FrontIsNext(RunTwo(aiVoice, rs).now.streams, music);
  }

  lemma OnlyStreamsLeft(aiVoice: bool, rs: seq<Request>, pos: Position)
    requires Run(aiVoice, rs).Intact? && |RunTwo(aiVoice, rs).now.prompts| <= 1
    ensures var t := RunTwo(aiVoice, rs).now;
      Run(aiVoice, rs).l == t.streams + t.prompts
      && Close(aiVoice, Run(aiVoice, rs).l, PlayBack, pos) == t.streams && FirstOf(t.streams, PlayBack) == |t.streams|
  {
    RunIsStreamsThenPrompts(aiVoice, rs);
    var t := RunTwo(aiVoice, rs).now;
    PromptTakenRefines(aiVoice, t, CloseId(PlayBack, pos));
    assert t.streams + Rest(t.prompts) == t.streams;
    assert FirstOf(t.streams, PlayBack) == |t.streams|;
  }

  /** Where AI voice is built in, closing it takes the last AI voice entry off, if a stream and such an entry are listed. */
  lemma AiVoiceTakesLast(l: seq<Entry>, pos: Position, k: nat)
    requires k < |l| && l[k].id == AiVoice && forall i | k < i < |l| :: l[i].id != AiVoice
    ensures Close(true, l, AiVoice, pos) == l[..k] + l[k + 1..]
  {
    assert IsStream(true, l[k]);
    assert LastOf(l, AiVoice) == k;
  }

  /** Closing anything but a prompt opens nothing, and neither does a close on an empty list. */
  lemma OnlyPromptsGoOn(aiVoice: bool, l: seq<Entry>, id: Id, pos: Position, music: bool)
    requires NextAfterClose(aiVoice, l, id, pos, music) != Nothing
    ensures id == PlayBack && l != []
  {
  }

  // ---- Runs that lose the order ----

  const MUSIC := Entry(A2dpSbc, false, 0)
  const NOTICE := Entry(PlayBack, false, 1)
  const RING := Entry(PlayBack, true, 2)
  const CALL := Entry(HfpPcm, false, 3)
  const OPENED: seq<Request> := [OpenEntry(MUSIC), OpenEntry(NOTICE), OpenEntry(RING)]

  /** app_bt_stream_open closes the running music so when it opens something else. */
  const CLOSE_MUSIC: Request := CloseId(A2dpSbc, Tail)

  /** One more request. */
  lemma RunGoesOn(aiVoice: bool, rs: seq<Request>, r: Request, h: History)
    requires RunTwo(aiVoice, rs) == h
    ensures RunTwo(aiVoice, rs + [r]) ==
            History(h.broken || Exhausts(aiVoice, h.now, r), Step(aiVoice, h.now, r),
                    h.came + Came(h.now, r), h.went + Went(aiVoice, h.now, r))
  {
    assert (rs + [r])[..|rs|] == rs;
  }

  lemma NoticeRun()
    ensures RunTwo(false, [OpenEntry(MUSIC), OpenEntry(NOTICE)]) == History(false, Two([MUSIC], [NOTICE]), [NOTICE], [])
  {
    var h := History(false, Two([], []), [], []);
    RunGoesOn(false, [], OpenEntry(MUSIC), h);
    assert [] + [OpenEntry(MUSIC)] == [OpenEntry(MUSIC)] && [MUSIC] + [] == [MUSIC];
    h := History(false, Two([MUSIC], []), [], []);
    RunGoesOn(false, [OpenEntry(MUSIC)], OpenEntry(NOTICE), h);
    assert [OpenEntry(MUSIC)] + [OpenEntry(NOTICE)] == [OpenEntry(MUSIC), OpenEntry(NOTICE)];
    assert [] + [NOTICE] == [NOTICE];
  }

  lemma RingJoins()
    ensures var t := Two([MUSIC], [NOTICE]);
      && Step(false, t, OpenEntry(RING)) == Two([MUSIC], [NOTICE, RING]) && !Exhausts(false, t, OpenEntry(RING))
      && Came(t, OpenEntry(RING)) == [RING] && Went(false, t, OpenEntry(RING)) == []
  {
    assert [NOTICE] + [RING] == [NOTICE, RING];
  }

  lemma OpenedRun()
    ensures RunTwo(false, OPENED) == History(false, Two([MUSIC], [NOTICE, RING]), [NOTICE, RING], [])
  {
    NoticeRun();
    RingJoins();
    RunGoesOn(false, [OpenEntry(MUSIC), OpenEntry(NOTICE)], OpenEntry(RING),
              History(false, Two([MUSIC], [NOTICE]), [NOTICE], []));
    assert [OpenEntry(MUSIC), OpenEntry(NOTICE)] + [OpenEntry(RING)] == OPENED;
    assert [NOTICE] + [RING] == [NOTICE, RING];
  }

  lemma CallOpenedRun()
    ensures RunTwo(false, OPENED + [OpenEntry(CALL)]) ==
            History(false, Two([CALL, MUSIC], [NOTICE, RING]), [NOTICE, RING], [])
  {
    OpenedRun();
    RunGoesOn(false, OPENED, OpenEntry(CALL), RunTwo(false, OPENED));
    assert [CALL] + [MUSIC] == [CALL, MUSIC];
  }

  lemma TailCloseTakesRing()
    ensures var t := Two([CALL, MUSIC], [NOTICE, RING]);
      && TakesYoungest(false, t, CLOSE_MUSIC) && Step(false, t, CLOSE_MUSIC) == Two([CALL, MUSIC], [NOTICE])
      && Came(t, CLOSE_MUSIC) == [] && Went(false, t, CLOSE_MUSIC) == [RING]
  {
    var t := Two([CALL, MUSIC], [NOTICE, RING]);
    assert IsStream(false, t.streams[0]);
    assert t.prompts[1..] == [RING] && t.prompts[..1] == [NOTICE];
  }

  /**
   * Where prompts play over music: a notice and a ring wait when a call is opened over the music. The call is listed
   * first, and closing the music takes the ring, the younger of the two prompts.
   */
  lemma YoungestPromptCanGoFirst()
    ensures var rs := OPENED + [OpenEntry(CALL)] + [CLOSE_MUSIC];
      && Run(false, rs) == Intact([CALL, MUSIC, NOTICE])
      && RunTwo(false, rs) == History(false, Two([CALL, MUSIC], [NOTICE]), [NOTICE, RING], [RING])
      && RunTwo(false, rs).came != RunTwo(false, rs).went + RunTwo(false, rs).now.prompts
  {
    var rs := OPENED + [OpenEntry(CALL)] + [CLOSE_MUSIC];
    CallOpenedRun();
    TailCloseTakesRing();
    RunGoesOn(false, OPENED + [OpenEntry(CALL)], CLOSE_MUSIC, RunTwo(false, OPENED + [OpenEntry(CALL)]));
    var h := RunTwo(false, rs);
    assert h == History(false, Two([CALL, MUSIC], [NOTICE]), [NOTICE, RING] + [], [] + [RING]);
    RunIsStreamsThenPrompts(false, rs);
    assert [CALL, MUSIC] + [NOTICE] == [CALL, MUSIC, NOTICE];
    assert (h.went + h.now.prompts)[0] == RING;
  }

  lemma TailCloseTakesNotice()
    ensures var t := Two([MUSIC], [NOTICE]);
      Step(false, t, CLOSE_MUSIC) == Two([MUSIC], []) && !Exhausts(false, t, CLOSE_MUSIC)
  {
    assert IsStream(false, [MUSIC][0]) && [NOTICE][..0] == [];
  }

  /** Where they do not: opening a notice closes the music so, which takes the notice itself and leaves the music. */
  lemma NoticeTakesItself()
    ensures Run(false, [OpenEntry(MUSIC), OpenEntry(NOTICE)] + [CLOSE_MUSIC]) == Intact([MUSIC])
  {
    var rs := [OpenEntry(MUSIC), OpenEntry(NOTICE)];
    NoticeRun();
    TailCloseTakesNotice();
    RunGoesOn(false, rs, CLOSE_MUSIC, RunTwo(false, rs));
    RunIsStreamsThenPrompts(false, rs + [CLOSE_MUSIC]);
    assert [MUSIC] + [] == [MUSIC];
  }

  // ---- Runs that use up the pool ----

  function Copies<T>(x: T, n: nat): (s: seq<T>)
    ensures |s| == n && forall i | 0 <= i < n :: s[i] == x
  {
    seq(n, _ => x)
  }

  /** Opening one stream again and again breaks the list exactly with the 21st time. */
  lemma {:induction false} RepeatedOpensBreakIff(aiVoice: bool, n: nat)
    ensures Run(aiVoice, Copies(OpenEntry(MUSIC), n)) == if n > POOL_SIZE then Broken else Intact(Copies(MUSIC, n))
    decreases n
  {
    var rs := Copies(OpenEntry(MUSIC), n);
    if n > 0 {
      RepeatedOpensBreakIff(aiVoice, n - 1);
      assert rs[..n - 1] == Copies(OpenEntry(MUSIC), n - 1);
      assert [MUSIC] + Copies(MUSIC, n - 1) == Copies(MUSIC, n);
    }
  }
}
