/** What an episode says, what it sends to the model and how it ends, told from
    its turns alone (scientist/agent.py). The loop of `Episode` is proved against
    it. A history is the turns up to and with the one in question. */
module Course {
  import opened Basics
  import opened Messages
  import opened NativeTools
  import opened Context
  import opened ListeningDoor

  /** The standing texts of the loop, whatever they say. */
  datatype Texts = Texts(knock: string, idle: string, resumed: string)

  /** What the world, the collaborators and the model do in one step. */
  datatype Turn = Turn(
    knockDue: bool,           // little of the wall clock is left
    spent: bool,              // too little for another model call
    budgetNote: string,
    arrivals: seq<string>,    // finished engagements, then background jobs
    reply: Reply,
    spoilt: bool,             // something raises before the model call
    failed: bool,             // the model call raises
    raises: Option<nat>,      // something raises once so many results are out
    observations: seq<string>,  // one per call, in call order
    revised: seq<bool>,       // the call rewrote the research view
    viewAfter: Option<string>,  // the view on file once the calls have run
    attempt: Attempt,         // the call as the door sees it, if terminal
    refusal: string)          // what the door writes if it refuses

  datatype Ending = CutOff | Concluded | Crashed | Dead

  function Users(texts: seq<string>): (ms: seq<Message>)
    ensures |ms| == |texts|
  {
    seq(|texts|, i requires 0 <= i < |texts| => User(texts[i]))
  }

  // ---- one turn -------------------------------------------------------------

  /** The message of a reply: each call under its own id and name, with its
      argument text or, for want of one, an empty object. */
  ghost function CallMessage(r: Reply): Message {
    Assistant(r.text, seq(|r.calls|, i requires 0 <= i < |r.calls| =>
      WireCall(r.calls[i].id, r.calls[i].name, if r.calls[i].raw == "" then "{}" else r.calls[i].raw)))
  }

  /** The first answers of a batch, each under the id of its own call. */
  ghost function AnswerMessages(r: Reply, observations: seq<string>, n: nat): (ms: seq<Message>)
    requires n <= |r.calls| && n <= |observations|
    ensures |ms| == n
  {
    seq(n, i requires 0 <= i < n => Result(r.calls[i].id, observations[i]))
  }

  /** The call runs under this name: its own, unless its arguments hold another. */
  predicate ActsAs(c: ToolCall, name: string) {
    if c.parsed.Some? && "action" in c.parsed.value then c.parsed.value["action"] == name else c.name == name
  }

  /** A lone call that would end the episode. */
  predicate Terminal(t: Turn) {
    |t.reply.calls| == 1 && (ActsAs(t.reply.calls[0], "deliver_world") || ActsAs(t.reply.calls[0], "abstain"))
  }

  predicate Answers(t: Turn) {
    !t.spent && !t.spoilt && !t.failed
  }

  /** The turn reaches the door and the door reads the call. */
  predicate Knocks(t: Turn) {
    Answers(t) && Terminal(t) && t.raises == None
  }

  predicate Raises(t: Turn) {
    !t.spent && (t.spoilt || t.failed || (t.reply.calls != [] && t.raises.Some?))
  }

  /** How many results of a batch are written. */
  ghost function Written(t: Turn): (n: nat)
    ensures n <= |t.reply.calls|
  {
    if t.raises.Some? && t.raises.value < |t.reply.calls| then t.raises.value else |t.reply.calls|
  }

  ghost function BatchMessages(t: Turn): seq<Message>
    requires |t.observations| == |t.reply.calls|
  {
    [CallMessage(t.reply)] + AnswerMessages(t.reply, t.observations, Written(t))
  }

  // ---- a history ------------------------------------------------------------

  /** What was brought before the door, in order. */
  ghost function AttemptsOf(h: seq<Turn>): seq<Attempt> {
    if h == [] then []
    else AttemptsOf(h[..|h| - 1]) + if Knocks(h[|h| - 1]) then [h[|h| - 1].attempt] else []
  }

  /** The last turn went through the door. */
  ghost predicate Delivered(h: seq<Turn>) {
    h != [] && Knocks(h[|h| - 1]) && Answered(AttemptsOf(h)) == Accepted
  }

  /** Replies without a call at the end of the history. */
  ghost function Idle(h: seq<Turn>): nat {
    if h == [] || h[|h| - 1].reply.calls != [] then 0 else 1 + Idle(h[..|h| - 1])
  }

  /** How the last turn ends the episode; `CutOff` if it does not, or leaves no
      time for more. */
  ghost function EndOf(h: seq<Turn>): (e: Ending)
    ensures e != Dead
  {
    if h == [] then CutOff
    else if Raises(h[|h| - 1]) then Crashed
    else if Delivered(h) then Concluded
    else CutOff
  }

  ghost predicate GoesOn(h: seq<Turn>) {
    EndOf(h) == CutOff && (h != [] ==> !h[|h| - 1].spent)
  }

  /** Ahead of the model call: the knock of the closing hour, once; the pace
      note at the first step and every fiftieth; what has arrived. */
  ghost function Notices(texts: Texts, h: seq<Turn>): seq<string>
    requires h != []
  {
    var t := h[|h| - 1];
    (if t.knockDue && forall j | 0 <= j < |h| - 1 :: !h[j].knockDue then [texts.knock] else [])
    + if t.spent then []
      else (if |h| == 1 || |h| % 50 == 0 then [t.budgetNote] else []) + t.arrivals
  }

  ghost predicate Batches(h: seq<Turn>) {
    forall t | t in h :: |t.observations| == |t.revised| == |t.reply.calls|
  }

  /** What the last reply of the history leads to: the reply, and a nudge behind
      every third one in a row without a call; a terminal call, and the refusal
      unless it got through or something raised; a batch and its results. */
  ghost function Reaction(texts: Texts, h: seq<Turn>): seq<Message>
    requires h != [] && Batches(h)
  {
    var t := h[|h| - 1];
    if t.spent || t.spoilt || t.failed then []
    else if t.reply.calls == [] then
      [CallMessage(t.reply)] + if Idle(h) % 3 == 0 then [User(texts.idle)] else []
    else if Terminal(t) then
      [CallMessage(t.reply)]
      + if t.raises.Some? || Delivered(h) then [] else [Result(t.reply.calls[0].id, t.refusal)]
    else BatchMessages(t)
  }

  /** What the turns after these put on the wire, if nothing kills the process. */
  ghost function Rest(texts: Texts, turns: seq<Turn>, i: nat): seq<Message>
    requires i <= |turns| && Batches(turns)
    decreases |turns| - i
  {
    if i == |turns| then []
    else
      Users(Notices(texts, turns[..i + 1])) + Reaction(texts, turns[..i + 1])
      + if GoesOn(turns[..i + 1]) then Rest(texts, turns, i + 1) else []
  }

  /** What the first `k` turns put on the wire. */
  ghost function Told(texts: Texts, turns: seq<Turn>, k: nat): seq<Message>
    requires k <= |turns| && Batches(turns)
  {
    if k == 0 then []
    else Told(texts, turns, k - 1) + Users(Notices(texts, turns[..k])) + Reaction(texts, turns[..k])
  }

  lemma {:induction false} ToldThenRest(texts: Texts, turns: seq<Turn>, k: nat)
    requires k <= |turns| && Batches(turns)
    requires forall i | 0 < i <= k :: GoesOn(turns[..i])
    ensures Rest(texts, turns, 0) == Told(texts, turns, k) + Rest(texts, turns, k)
  {
    hide Notices, Reaction, GoesOn;
    if k > 0 {
      ToldThenRest(texts, turns, k - 1);
      assert GoesOn(turns[..k]);
      Concat4(Told(texts, turns, k - 1), Users(Notices(texts, turns[..k])), Reaction(texts, turns[..k]),
              Rest(texts, turns, k));
    }
  }

  /** The list an episode begins with: a cold start, one without a wire file,
      adds the pointer to an inherited memory. */
  ghost function First(live: seq<Message>, inherited: Option<string>, cold: bool): seq<Message> {
    live + if cold && inherited.Some? then [User(inherited.value)] else []
  }

  /** What it puts on the wire before its turns. */
  ghost function Framing(live: seq<Message>, inherited: Option<string>, cold: bool): seq<Message> {
    if cold then First(live, inherited, true) else []
  }

  /** All an episode puts on the wire, if nothing kills the process. */
  ghost function Script(texts: Texts, live: seq<Message>, inherited: Option<string>, cold: bool, turns: seq<Turn>,
                        salvage: seq<string>): seq<Message>
    requires Batches(turns)
  {
    Framing(live, inherited, cold) + Rest(texts, turns, 0) + Users(salvage)
  }

  // ---- the lists sent -------------------------------------------------------

  /** The list once the results of a batch are out: the note is renewed behind a
      result that rewrote the view. */
  ghost function Renewed(live: seq<Message>, t: Turn): seq<Message>
    requires |t.revised| == |t.reply.calls|
  {
    if exists i | 0 <= i < Written(t) :: t.revised[i] then Upserted(live, t.viewAfter) else live
  }

  ghost predicate IsBatch(t: Turn) {
    t.reply.calls != [] && !Terminal(t)
  }

  /** The list a history that goes on leaves behind. */
  ghost function After(texts: Texts, live: seq<Message>, h: seq<Turn>, budget: Budget): seq<Message>
    requires h != [] && Batches(h)
  {
    var t := h[|h| - 1];
    if IsBatch(t) then Upserted(Compacted(Renewed(live, t) + BatchMessages(t), budget), t.viewAfter)
    else live + Reaction(texts, h)
  }

  ghost function ViewAt(view: Option<string>, turns: seq<Turn>, k: nat): Option<string>
    requires k <= |turns|
  {
    if k == 0 then view
    else if IsBatch(turns[k - 1]) then turns[k - 1].viewAfter
    else ViewAt(view, turns, k - 1)
  }

  /** The list when turn `k` begins, for an episode that began with `first`. */
  ghost function ListAt(texts: Texts, first: seq<Message>, turns: seq<Turn>, k: nat, budget: Budget): seq<Message>
    requires k <= |turns| && Batches(turns)
    decreases k, 0
  {
    if k == 0 then first else After(texts, SentAt(texts, first, turns, k - 1, budget), turns[..k], budget)
  }

  /** The list the model is sent in turn `k`. */
  ghost function SentAt(texts: Texts, first: seq<Message>, turns: seq<Turn>, k: nat, budget: Budget): seq<Message>
    requires k < |turns| && Batches(turns)
    decreases k, 1
  {
    ListAt(texts, first, turns, k, budget) + Users(Notices(texts, turns[..k + 1]))
  }

  // ---- what these say -------------------------------------------------------

  /** The action of a call runs under the name its arguments hold, or its own. */
  lemma ActsAsExactly(c: ToolCall, name: string)
    ensures ActsAs(c, name) <==> ActionOf(c).name == name
  {
  }

  lemma ConcludedExactly(h: seq<Turn>)
    ensures EndOf(h) == Concluded <==> Delivered(h)
  {
  }

  /** When the last turn concludes: it holds one call and no other, one that acts
      as a delivery or an abstention, nothing raised, the call was well formed,
      and a delivery had its hearing unless three before it went unheard. */
  lemma DeliveredExactly(h: seq<Turn>)
    requires h != []
    ensures var t := h[|h| - 1];
      Delivered(h) <==>
        && Answers(t) && |t.reply.calls| == 1 && t.raises == None
        && (ActsAs(t.reply.calls[0], "deliver_world") || ActsAs(t.reply.calls[0], "abstain"))
        && t.attempt.wellFormed
        && (t.attempt.Abstain? || Heard(t.attempt) || UnheardDeliveries(AttemptsOf(h[..|h| - 1])) >= 3)
  {
    var t := h[|h| - 1];
    if Knocks(t) {
      InitOfSnoc(AttemptsOf(h[..|h| - 1]), t.attempt);
      AcceptedExactly(AttemptsOf(h));
    }
  }

  lemma InSnoc<T>(s: seq<T>, x: T, y: T)
    ensures y in s + [x] <==> y in s || y == x
  {
  }

  /** Indices of the turns in the history, rising. */
  ghost predicate Rising(at: seq<nat>, n: nat) {
    && (forall i | 0 <= i < |at| :: at[i] < n)
    && (forall i, j | 0 <= i < j < |at| :: at[i] < at[j])
  }

  lemma RisingSnoc(at: seq<nat>, n: nat)
    requires Rising(at, n)
    ensures Rising(at, n + 1) && Rising(at + [n], n + 1)
  {
  }

  /** What these turns bring. */
  ghost function Brought(h: seq<Turn>, at: seq<nat>): seq<Attempt>
    requires Rising(at, |h|)
  {
    seq(|at|, i requires 0 <= i < |at| => h[at[i]].attempt)
  }

  lemma BroughtNext(before: seq<Turn>, t: Turn, at: seq<nat>)
    requires Rising(at, |before|)
    ensures Rising(at, |before + [t]|) && Brought(before + [t], at) == Brought(before, at)
    ensures Rising(at + [|before|], |before + [t]|)
    ensures Brought(before + [t], at + [|before|]) == Brought(before, at) + [t.attempt]
  {
    RisingSnoc(at, |before|);
  }

  lemma AttemptsNext(before: seq<Turn>, t: Turn)
    ensures AttemptsOf(before + [t]) == AttemptsOf(before) + if Knocks(t) then [t.attempt] else []
  {
    InitOfSnoc(before, t);
  }

  /** A knock at the door is made in turn, by every turn that brings a lone
      terminal call and by no other. */
  lemma {:induction false} AttemptsInOrder(h: seq<Turn>) returns (at: seq<nat>)
    ensures Rising(at, |h|) && AttemptsOf(h) == Brought(h, at)
    ensures forall k | 0 <= k < |h| :: k in at <==> Knocks(h[k])
  {
    if h == [] {
      at := [];
    } else {
      hide Knocks, AttemptsOf, Rising, Brought;
      var before, last := h[..|h| - 1], |h| - 1;
      var earlier := AttemptsInOrder(before);
      assert h == before + [h[last]];
      BroughtNext(before, h[last], earlier);
      AttemptsNext(before, h[last]);
      at := if Knocks(h[last]) then earlier + [last] else earlier;
      forall k | 0 <= k < |h| ensures k in at <==> Knocks(h[k]) {
        InSnoc(earlier, last, k);
        RisingBelow(earlier, last);
        assert k < last ==> before[k] == h[k];
      }
    }
  }

  lemma RisingBelow(at: seq<nat>, n: nat)
    requires Rising(at, n)
    ensures n !in at
  {
  }
}
