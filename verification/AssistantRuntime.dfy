/** The verbs of the engagement runtime (scientist/assistant_tools.py) over the
    directories of `Engagements`, across process restarts. */
module AssistantRuntime {
  import opened Basics
  import opened Engagements
  import opened ListeningDoor

  /** What becomes of a launch: refused before or after an id was dealt, a seat
      that does not start, a seat that does. Stray settings are found in the work
      tree, which for an `isolated` seat is one of its own. */
  datatype Fate = Undeclared | BadWorkspace | StraySettings(isolated: bool) | NoProcess | Started

  /** A launch refused after its id was dealt, and before its directory was born:
      an executor in the current workspace, or a continued one, has no directory
      until it starts. */
  predicate Homeless(role: Role, resume: Option<string>, fate: Fate) {
    fate.BadWorkspace? || (fate.StraySettings? && (resume.Some? || (role.Executor? && !fate.isolated)))
  }

  datatype Bound = Unbounded | Minutes(n: int)

  /** `_box_from_action`, in seconds. */
  function Box(minutes: Option<int>, default: nat, maxMinutes: nat): (box: nat)
    ensures minutes.Some? ==> 60 <= box && (1 <= maxMinutes ==> box <= 60 * maxMinutes)
    ensures minutes.Some? && 1 <= minutes.value <= maxMinutes ==> box == 60 * minutes.value
    ensures minutes == None ==> box == default
  {
    match minutes
    case None => default
    case Some(n) =>
      var capped := if n < maxMinutes then n else maxMinutes;
      60 * if capped < 1 then 1 else capped
  }

  /** What can happen next, a kill included; `Restart` is the process after it. */
  datatype Op =
    | DoLaunch(role: Role, minutes: Option<int>, fate: Fate)
    | DoEngage(role: Role, minutes: Option<int>, fate: Fate)
    | DoContinue(callId: CallId, minutes: Option<int>, workspaceKept: bool, fate: Fate)
    | DoPoll
    | DoWait(bound: Bound, anyMode: bool)
    | DoCancel(callId: CallId)
    | DoShutdown
    | DoSleep
    | KilledLaunching(role: Role)
    | KilledCollecting(callId: CallId)
    | KilledWriting(callId: CallId)
    | KilledDelivering(callId: CallId)
    | Restart

  /** `max(1, int(timeout_minutes)) * 60` seconds. */
  function BoundTicks(bound: Bound): int {
    match bound
    case Unbounded => 0
    case Minutes(n) => TICKS_PER_SECOND * 60 * if n < 1 then 1 else n
  }

  ghost predicate NoneUndelivered(dirs: Dirs) {
    forall id | id in dirs :: !Undelivered(dirs[id])
  }

  predicate FinishedAfter(d: Dir, moment: int) {
    FinishedAt(d).Some? && FinishedAt(d).value > moment
  }

  /** Some seats have exited and nothing else changed. */
  ghost predicate Rested(was: Dirs, now: Dirs, around: Surroundings, clock: int) {
    && now.Keys == was.Keys
    && forall id | id in now :: now[id] == was[id].(alive := was[id].alive && !around.exits(id, clock))
  }

  /** A wait that began at `first` paused for the last time at `before`, with its
      bound of so many minutes, at least one, not over. */
  predicate LastPause(around: Surroundings, before: int, clock: int, first: int, bound: Bound) {
    && clock == before + 1 + around.lag(before)
    && (bound.Minutes? ==> before < first + 240 * if bound.n < 1 then 1 else bound.n)
  }

  lemma Paused(around: Surroundings, before: int, clock: int, first: int, bound: Bound)
    requires clock == before + 1 + around.lag(before)
    requires bound.Minutes? ==> before < first + BoundTicks(bound)
    ensures LastPause(around, before, clock, first, bound)
  {
  }

  /** Some Reviewer engagement finished after a moment, be its report torn. */
  predicate ReviewerFinishedAfter(dirs: Dirs, moment: int) {
    exists id | id in dirs :: id.role == Reviewer && FinishedAfter(dirs[id], moment)
  }

  /** A delivery as the door sees it, the Reviewers' finish times read off their
      directories. */
  ghost function DeliveryAt(dirs: Dirs, wellFormed: bool, lastWrite: int): Attempt {
    Deliver(wellFormed, lastWrite,
            set id | id in dirs && id.role == Reviewer && FinishedAt(dirs[id]).Some? :: FinishedAt(dirs[id]).value)
  }

  lemma HeardIsReviewed(dirs: Dirs, wellFormed: bool, lastWrite: int)
    ensures Heard(DeliveryAt(dirs, wellFormed, lastWrite)) <==> ReviewerFinishedAfter(dirs, lastWrite)
  {
    var a := DeliveryAt(dirs, wellFormed, lastWrite);
    if ReviewerFinishedAfter(dirs, lastWrite) {
      var id :| id in dirs && id.role == Reviewer && FinishedAfter(dirs[id], lastWrite);
      assert FinishedAt(dirs[id]).value in a.reviewed;
    }
  }

  /** A delivery is accepted if and only if it is well formed and some Reviewer
      engagement finished after the last write, or three deliveries before it
      were unheard. */
  lemma DeliveryAcceptedExactly(attempts: seq<Attempt>, dirs: Dirs, wellFormed: bool, lastWrite: int)
    ensures Answered(attempts + [DeliveryAt(dirs, wellFormed, lastWrite)]) == Accepted <==>
            wellFormed && (ReviewerFinishedAfter(dirs, lastWrite) || UnheardDeliveries(attempts) >= REFUSALS_MAX)
  {
    var a := DeliveryAt(dirs, wellFormed, lastWrite);
    HeardIsReviewed(dirs, wellFormed, lastWrite);
    InitOfSnoc(attempts, a);
    AcceptedExactly(attempts + [a]);
  }

  predicate Arrived(dirs: Dirs) {
    exists id | id in dirs :: Unread(dirs[id])
  }

  /** A torn report where arrivals are looked for. */
  ghost predicate SomeTorn(dirs: Dirs) {
    exists id | id in dirs :: dirs[id].home == Scratch && dirs[id].torn.Some?
  }

  lemma TornAsBefore(was: Dirs, now: Dirs)
    requires Waited(was, now)
    ensures SomeTorn(now) <==> SomeTorn(was)
  {
    forall id | id in now ensures id in was && now[id].torn == was[id].torn && now[id].home == was[id].home {
      assert DirAdvances(was[id], now[id]);
    }
  }

  /** An arrival can be taken, or is torn. */
  lemma ArrivedExactly(dirs: Dirs, records: seq<CallId>, handed: seq<CallId>, lost: multiset<CallId>,
                       cut: multiset<CallId>)
    requires Sound(dirs, records, handed, lost, cut)
    ensures Arrived(dirs) <==> (exists id | id in dirs :: Undelivered(dirs[id])) || SomeTorn(dirs)
  {
    hide RecordsMatch, HandedOnce, HintsDistinct;
    if Arrived(dirs) {
      var id :| id in dirs && Unread(dirs[id]);
      assert Undelivered(dirs[id]) || dirs[id].torn.Some?;
    } else {
      forall id | id in dirs ensures !Undelivered(dirs[id]) && !(dirs[id].home == Scratch && dirs[id].torn.Some?) {
        assert !Unread(dirs[id]);
      }
    }
  }

  class InWorldAssistant {
    const around: Surroundings
    const defaultBox: nat
    const maxMinutes: nat
    const episode: string
    var dirs: Dirs
    var counter: nat
    var records: seq<CallId>
    var clock: int
    /** The reports the marker-taking verbs have returned, those a kill lost
        between their marker and their reader, and the collections a kill cut
        short between the record row and a whole digest. */
    ghost var handed: seq<CallId>
    ghost var lost: multiset<CallId>
    ghost var cut: multiset<CallId>

    ghost predicate OnDisk()
      reads this
    {
      Sound(dirs, records, handed, lost, cut)
    }

    ghost predicate Valid()
      reads this
    {
      OnDisk() && Numbered(dirs, counter)
    }

    constructor (around: Surroundings, defaultBox: nat, maxMinutes: nat, episode: string)
      ensures Valid() && dirs == map[] && counter == 0 && records == [] && handed == []
    {
      this.around, this.defaultBox, this.maxMinutes, this.episode := around, defaultBox, maxMinutes, episode;
      dirs, counter, records, clock := map[], 0, [], 0;
      handed, lost, cut := [], multiset{}, multiset{};
    }

    // ---- collection -------------------------------------------------------

    /** The one finalizer. The caller has seen the seat dead or killed it. A torn
        digest is archived again. */
    method Collect(id: CallId, hint: Option<Status>) returns (digest: Digest)
      requires OnDisk() && id in dirs && dirs[id].manifest.Some?
      modifies this`dirs, this`records
      ensures OnDisk() && dirs.Keys == old(dirs).Keys
      ensures old(dirs)[id].torn == None ==> Advances(old(dirs), dirs)
      ensures forall other | other in dirs && other != id :: dirs[other] == old(dirs)[other]
      ensures dirs[id].digest == Some(digest) && dirs[id].torn == None
      ensures old(dirs)[id].digest.Some? ==> dirs == old(dirs) && records == old(records)
      ensures old(dirs)[id].digest == None ==>
        Collected(old(dirs)[id], dirs[id], hint, around.transcript(id, clock), clock)
      ensures old(dirs)[id].digest == None ==>
        var raw := around.transcript(id, clock);
        match hint
        case None => digest.status == if raw.parsed then Done else Unparsed
        case Some(why) => digest.status == if raw.work then why else Failed
      ensures old(dirs)[id].digest == None ==>
        && records == old(records) + (if around.archives(id, clock) then [id] else [])
        && digest.record == if around.archives(id, clock) then Some(|records|) else None
    {
      hide RecordsMatch, HandedOnce, HintsDistinct;
      AdvancesRefl(dirs);
      var d := dirs[id];
      if d.digest.Some? {
        return d.digest.value;
      }
      var raw := around.transcript(id, clock);
      var noted := around.archives(id, clock);
      digest := Digest(d.manifest.value.role, StatusOf(hint, raw), raw.session, clock,
                       if noted then Some(|records| + 1) else None);
      CollectIsSound(dirs, records, handed, lost, cut, id, digest, noted);
      if noted {
        records := records + [id];
      }
      dirs := dirs[id := d.(digest := Some(digest), torn := None, alive := false)];
    }

    /** A kill between the record row and the digest. */
    method DieCollecting(id: CallId)
      requires OnDisk() && id in dirs && Unfinalized(dirs[id])
      modifies this`records, this`cut
      ensures OnDisk() && cut == old(cut) + multiset{id}
    {
      CutRow(dirs, records, cut, id);
      records := records + [id];
      cut := cut + multiset{id};
    }

    /** A kill in the middle of writing the digest, the record row already
        written unless the archive refused it. */
    method DieWriting(id: CallId)
      requires OnDisk() && id in dirs && Unfinalized(dirs[id])
      modifies this`dirs, this`records, this`cut
      ensures OnDisk() && Advances(old(dirs), dirs)
      ensures dirs == old(dirs)[id := old(dirs)[id].(torn := Some(clock), alive := false)]
      ensures var rows := if around.archives(id, clock) then [id] else [];
        records == old(records) + rows && cut == old(cut) + multiset(rows)
    {
      hide Sound, Advances;
      TearIsSound(dirs, records, handed, lost, cut, id, clock);
      if around.archives(id, clock) {
        records := records + [id];
        cut := cut + multiset{id};
      }
      dirs := dirs[id := dirs[id].(torn := Some(clock), alive := false)];
    }

    /** A kill between touching the marker and passing the report on. */
    method DieDelivering(id: CallId)
      requires OnDisk() && id in dirs && Undelivered(dirs[id])
      modifies this`dirs, this`lost
      ensures OnDisk() && Advances(old(dirs), dirs) && dirs.Keys == old(dirs).Keys
      ensures lost == old(lost) + multiset{id}
    {
      MarkIsSound(dirs, records, handed, lost, cut, id);
      dirs := dirs[id := dirs[id].(read := true)];
      lost := lost + multiset{id};
    }

    // ---- launch -----------------------------------------------------------

    method Launch(role: Role, minutes: Option<int>, resume: Option<string>, fate: Fate) returns (id: Option<CallId>)
      requires Valid()
      requires resume.Some? ==> forall other :: Resumed(dirs, other) != resume
      modifies this`dirs, this`counter
      ensures Valid() && Advances(old(dirs), dirs)
      ensures id.Some? <==> fate == Started
      ensures id.Some? ==>
        && id.value !in old(dirs) && id.value == CallId(role, old(counter) + 1)
        && var manifest := Manifest(role, clock, Box(minutes, defaultBox, maxMinutes), resume);
        dirs == old(dirs)[id.value := Dir(Scratch, Some(manifest), None, None, false, true)]
      ensures forall other | other in old(dirs) :: other in dirs && dirs[other] == old(dirs)[other]
      ensures id == None ==> forall other | other in dirs && Unfinalized(dirs[other]) :: other in old(dirs)
      ensures counter == old(counter) + if fate == Undeclared then 0 else 1
      ensures id == None ==>
        dirs == if fate == Undeclared || fate == BadWorkspace
                   || (fate.StraySettings? && (resume.Some? || (role == Executor && !fate.isolated))) then old(dirs)
                else old(dirs)[CallId(role, counter) := Dir(Scratch, None, None, None, false, false)]
    {
      hide Sound, Numbered, Advances;
      id := None;
      AdvancesRefl(dirs);
      if fate == Undeclared {
        return;
      }
      NumberedLater(dirs, counter);
      counter := counter + 1;
      var dealt := CallId(role, counter);
      if Homeless(role, resume, fate) {
        return;
      }
      // the directory may exist from here on, without a manifest
      var born := dirs[dealt := Dir(Scratch, None, None, None, false, false)];
      if fate == Started {
        var manifest := Manifest(role, clock, Box(minutes, defaultBox, maxMinutes), resume);
        born := dirs[dealt := Dir(Scratch, Some(manifest), None, None, false, true)];
        id := Some(dealt);
      }
      NumberedMore(dirs, dealt, born[dealt], counter - 1);
      BirthIsSound(dirs, records, handed, lost, cut, dealt, born[dealt]);
      dirs := born;
    }

    /** A kill between starting the seat and writing its manifest: the seat runs
        on and no verb will ever see it. */
    method DieLaunching(role: Role)
      requires Valid()
      modifies this`dirs, this`counter
      ensures Valid() && Advances(old(dirs), dirs) && counter == old(counter) + 1
      ensures dirs == old(dirs)[CallId(role, counter) := Dir(Scratch, None, None, None, false, true)]
    {
      counter := counter + 1;
      var orphan := Dir(Scratch, None, None, None, false, true);
      BirthIsSound(dirs, records, handed, lost, cut, CallId(role, counter), orphan);
      dirs := dirs[CallId(role, counter) := orphan];
    }

    // ---- sweep and delivery -----------------------------------------------

    /** Time passes between two polls: a quarter second and whatever more. */
    method Sleep()
      requires OnDisk()
      modifies this`clock, this`dirs
      ensures OnDisk() && Waited(old(dirs), dirs)
      ensures clock == old(clock) + 1 + around.lag(old(clock))
      ensures Rested(old(dirs), dirs, around, clock)
    {
      hide Sound;
      clock := clock + 1 + around.lag(clock);
      BreatheIsSound(dirs, records, handed, lost, cut, around.exits, clock);
      dirs := Breathe(dirs, around.exits, clock);
    }

    /** Collect all that has finished or outlived its box. */
    method Sweep()
      requires OnDisk()
      modifies this`dirs, this`records
      ensures OnDisk() && Advances(old(dirs), dirs)
      ensures SweptBut(old(dirs), dirs, {}, around, clock) && AllWithinBox(dirs, clock)
      ensures SweptPlainly(old(dirs), dirs, around, clock)
    {
      var todo := set id | id in dirs && Unfinalized(dirs[id]);
      assert SweptBut(dirs, dirs, todo, around, clock);
      while todo != {}
        invariant OnDisk()
        invariant SweptBut(old(dirs), dirs, todo, around, clock)
        invariant forall id | id in todo :: id in dirs && Unfinalized(dirs[id])
        decreases todo
      {
        var id :| id in todo;
        if Due(dirs[id], clock) {
          // a seat still alive is killed first
          ghost var was := dirs;
          var digest := Collect(id, SweepHint(dirs[id]));
          SweepCollects(old(dirs), was, dirs, todo, around, clock, id);
        } else {
          SweepSkips(old(dirs), dirs, todo, around, clock, id);
        }
        todo := todo - {id};
      }
      SweepDone(old(dirs), dirs, around, clock);
      SweptIsPlain(old(dirs), dirs, around, clock);
    }

    /** Touch one report's marker and hand the report out. */
    method Deliver(id: CallId)
      requires OnDisk() && id in dirs && Undelivered(dirs[id])
      modifies this`dirs, this`handed
      ensures OnDisk()
      ensures dirs == old(dirs)[id := old(dirs)[id].(read := true)] && handed == old(handed) + [id]
    {
      MarkIsSound(dirs, records, handed, lost, cut, id);
      dirs := dirs[id := dirs[id].(read := true)];
      handed := handed + [id];
    }

    /** Hand out finished reports by name, `only` one if asked, touching their
        markers. */
    method TakeReports(only: Option<CallId>) returns (out: seq<CallId>)
      requires OnDisk()
      modifies this`dirs, this`handed
      ensures OnDisk() && Advances(old(dirs), dirs)
      ensures handed == old(handed) + out && TakenBut(old(dirs), dirs, {}, only, out)
      ensures ByName(episode, out)
    {
      hide ByName, AllBefore, LexLe, Name;
      out := [];
      NothingByName(episode, dirs.Keys);
      var todo := dirs.Keys;
      while todo != {}
        invariant OnDisk()
        invariant handed == old(handed) + out && TakenBut(old(dirs), dirs, todo, only, out)
        invariant ByName(episode, out) && AllBefore(episode, out, todo)
        decreases todo
      {
        SomeFirstByName(episode, todo);
        var id :| id in todo && FirstByName(episode, id, todo);
        NextByName(episode, out, todo, id);
        if (only == None || only == Some(id)) && Undelivered(dirs[id]) {
          TakeMarks(old(dirs), dirs, todo, only, out, id);
          Deliver(id);
          Concat3(old(handed), out, [id]);
          out := out + [id];
        } else {
          TakeSkips(old(dirs), dirs, todo, only, out, id);
        }
        todo := todo - {id};
      }
      TakeDone(old(dirs), dirs, only, out);
    }

    method PollCompletions() returns (out: seq<CallId>)
      requires OnDisk()
      modifies this`dirs, this`records, this`handed
      ensures OnDisk() && Advances(old(dirs), dirs)
      ensures handed == old(handed) + out && Polled(old(dirs), dirs, out, clock) && ByName(episode, out)
    {
      Sweep();
      ghost var swept := dirs;
      out := TakeReports(None);
      SweepThenTake(old(dirs), swept, dirs, out, around, clock);
    }

    // ---- the verbs --------------------------------------------------------

    /** Wait for one engagement's own end. */
    method AwaitDigest(id: CallId)
      requires OnDisk() && id in dirs && dirs[id].manifest.Some?
      modifies this`dirs, this`records, this`clock
      ensures OnDisk() && Waited(old(dirs), dirs)
      ensures Written(dirs[id]) && dirs[id].torn == old(dirs)[id].torn
    {
      hide Rested;
      ghost var expiry := Expiry(dirs[id].manifest.value);
      while !Written(dirs[id])
        invariant OnDisk() && Waited(old(dirs), dirs)
        invariant dirs[id].manifest == old(dirs)[id].manifest
        decreases expiry - clock
      {
        ghost var was := dirs;
        SweepOnce();
        WaitedTrans(old(dirs), was, dirs);
        if Written(dirs[id]) {
          break;
        }
        assert Unfinalized(dirs[id]);
        was := dirs;
        Sleep();
        WaitedTrans(old(dirs), was, dirs);
      }
    }

    method SweepOnce()
      requires OnDisk()
      modifies this`dirs, this`records
      ensures OnDisk() && Waited(old(dirs), dirs) && AllWithinBox(dirs, clock)
    {
      Sweep();
      SweepWaits(old(dirs), dirs, around, clock);
    }

    /** Launch, wait, take this report and no other. */
    method Engage(role: Role, minutes: Option<int>, fate: Fate) returns (id: Option<CallId>, report: Option<Digest>)
      requires Valid()
      modifies this`dirs, this`counter, this`records, this`clock, this`handed
      ensures Valid() && Advances(old(dirs), dirs)
      ensures fate == Started ==>
        && id == Some(CallId(role, old(counter) + 1)) && id.value !in old(dirs) && id.value in dirs
        && handed == old(handed) + [id.value] && report == dirs[id.value].digest && report.Some?
        && dirs[id.value].read
      ensures fate != Started ==> id == None && report == None && handed == old(handed)
      ensures forall other | other in old(dirs) :: dirs[other].read == old(dirs)[other].read
    {
      hide Sound, Advances, Waited, TakenBut, Numbered, Unfinalized;
      report := None;
      id := Launch(role, minutes, None, fate);
      if id == None {
        return;
      }
      var mine := id.value;
      ghost var launched := dirs;
      AwaitDigest(mine);
      ghost var finished := dirs;
      var reports := TakeReports(Some(mine));
      EngagedAlone(old(dirs), launched, finished, dirs, mine, reports);
      SameKeysNumbered(launched, dirs, counter);
      if reports != [] {
        report := dirs[mine].digest;
      } else {
        assert false;   // the fallback of the code is never taken
      }
    }

    /** The look-back over the Reviewers' directories, of either home. */
    method ReviewerHeardAfter(moment: int) returns (heard: bool)
      ensures heard <==> ReviewerFinishedAfter(dirs, moment)
    {
      var todo := dirs.Keys;
      while todo != {}
        invariant todo <= dirs.Keys
        invariant forall id | id in dirs && id !in todo ::
                    !(id.role == Reviewer && FinishedAfter(dirs[id], moment))
        decreases todo
      {
        var id :| id in todo;
        if id.role == Reviewer && FinishedAfter(dirs[id], moment) {
          return true;
        }
        todo := todo - {id};
      }
      return false;
    }

    /** The door a delivery passes while it is enforced, and the same door when
        it no longer is. */
    method ValidateDelivery(wellFormed: bool, lastWrite: int, enforce: bool) returns (verdict: Verdict)
      ensures verdict == Validate(DeliveryAt(dirs, wellFormed, lastWrite), enforce)
    {
      HeardIsReviewed(dirs, wellFormed, lastWrite);
      if !wellFormed { return Malformed; }
      if enforce {
        var heard := ReviewerHeardAfter(lastWrite);
        if !heard { return Unheard; }
      }
      return Accepted;
    }

    method HasUnreadReports() returns (unread: bool)
      ensures unread <==> Arrived(dirs)
    {
      unread := exists id | id in dirs :: Unread(dirs[id]);
    }

    /** A sweep, then what is still pending and what has arrived. */
    method LookAround() returns (pending: bool, unread: bool)
      requires OnDisk()
      modifies this`dirs, this`records
      ensures OnDisk() && Waited(old(dirs), dirs) && AllWithinBox(dirs, clock)
      ensures pending <==> !NonePending(dirs)
      ensures unread <==> Arrived(dirs)
      ensures SomeTorn(dirs) ==> unread
    {
      hide Sound, Advances, Waited, Arrived;
      SweepOnce();
      pending := exists id | id in dirs :: Unfinalized(dirs[id]);
      unread := HasUnreadReports();
      ArrivedExactly(dirs, records, handed, lost, cut);
    }

    /** Sweep until nothing is pending, or the first arrival, or the bound; the
        last pause began `before` the bound was over. */
    method AwaitSeats(bound: Bound, anyMode: bool) returns (ghost before: int)
      requires OnDisk()
      modifies this`dirs, this`records, this`clock
      ensures OnDisk() && Waited(old(dirs), dirs) && AllWithinBox(dirs, clock)
      ensures NonePending(dirs) || (anyMode && Arrived(dirs))
              || (bound.Minutes? && clock >= old(clock) + BoundTicks(bound))
      ensures anyMode && SomeTorn(old(dirs)) ==> clock == old(clock)
      ensures clock == old(clock) || LastPause(around, before, clock, old(clock), bound)
    {
      hide Sound, Advances, Waited, SomeTorn, Arrived, ExpireBy, LastPause, Rested;
      hide AllWithinBox, NonePending, BoundTicks;
      before := clock;
      WaitedRefl(dirs);
      var deadline := clock + BoundTicks(bound);
      ghost var last := Horizon(dirs);
      var waiting := true;
      while waiting
        invariant OnDisk() && Waited(old(dirs), dirs) && ExpireBy(dirs, last)
        invariant !waiting ==> AllWithinBox(dirs, clock)
        invariant anyMode && SomeTorn(old(dirs)) ==> clock == old(clock)
        invariant clock == old(clock) || LastPause(around, before, clock, old(clock), bound)
        invariant !waiting ==> NonePending(dirs) || (anyMode && Arrived(dirs)) || (bound.Minutes? && clock >= deadline)
        decreases waiting, last - clock
      {
        ghost var was := dirs;
        var pending, unread := LookAround();
        WaitedTrans(old(dirs), was, dirs);
        StillExpireBy(was, dirs, last);
        TornAsBefore(old(dirs), dirs);
        if !pending || (anyMode && unread) || (bound.Minutes? && clock >= deadline) {
          waiting := false;
        } else {
          BeforeLast(dirs, last, clock);
          was, before := dirs, clock;
          Sleep();
          Paused(around, before, clock, old(clock), bound);
          WaitedTrans(old(dirs), was, dirs);
          StillExpireBy(was, dirs, last);
        }
      }
    }

    method WaitForSeats(bound: Bound, anyMode: bool)
      returns (finished: seq<CallId>, running: set<CallId>, ghost before: int)
      requires OnDisk()
      modifies this`dirs, this`records, this`clock, this`handed
      ensures OnDisk() && Advances(old(dirs), dirs)
      ensures handed == old(handed) + finished && Polled(old(dirs), dirs, finished, clock)
      ensures ByName(episode, finished)
      ensures running == set id | id in dirs && Unfinalized(dirs[id])
      ensures bound.Unbounded? && !anyMode ==> running == {}
      ensures bound.Minutes? && running != {} && !(anyMode && (finished != [] || SomeTorn(old(dirs)))) ==>
                clock >= old(clock) + 240 * (if bound.n < 1 then 1 else bound.n)
      ensures bound.Unbounded? && anyMode ==> running == {} || finished != [] || SomeTorn(old(dirs))
      ensures anyMode && SomeTorn(old(dirs)) ==> clock == old(clock)
      ensures clock == old(clock) || LastPause(around, before, clock, old(clock), bound)
    {
      before := AwaitSeats(bound, anyMode);
      ghost var waited := dirs;
      ArrivedExactly(waited, records, handed, lost, cut);
      TornAsBefore(old(dirs), waited);
      finished := TakeReports(None);
      TakeAll(old(dirs), waited, dirs, finished, clock);
      running := set id | id in dirs && Unfinalized(dirs[id]);
    }

    /** Resume a finished executor's session: every refusal of the code, and a
        launch exactly when there is none. */
    method ContinueEngagement(callId: CallId, briefed: bool, minutes: Option<int>, workspaceKept: bool, fate: Fate)
      returns (id: Option<CallId>)
      requires Valid()
      modifies this`dirs, this`counter
      ensures Valid() && Advances(old(dirs), dirs)
      ensures id.Some? <==> briefed && workspaceKept && fate == Started && Continuable(old(dirs), callId)
      ensures id.Some? ==> id.value !in old(dirs) && id.value in dirs && Unfinalized(dirs[id.value])
                           && Resumed(dirs, id.value) == old(dirs)[callId].digest.value.session
      ensures forall other | other in old(dirs) :: dirs[other] == old(dirs)[other]
    {
      id := None;
      if !briefed || callId !in dirs || dirs[callId].digest == None {
        return;
      }
      var digest := dirs[callId].digest.value;
      if digest.role != Executor || digest.status == Failed || digest.session == None {
        return;
      }
      if exists other | other in dirs ::
           Unfinalized(dirs[other]) && dirs[other].manifest.value.sessionHint == digest.session {
        ghost var other :| other in dirs && Unfinalized(dirs[other])
                           && dirs[other].manifest.value.sessionHint == digest.session;
        assert Resumed(dirs, other) == digest.session;
        return;
      }
      assert forall other :: Resumed(dirs, other) != digest.session;
      if !workspaceKept {
        return;
      }
      id := Launch(Executor, minutes, digest.session, fate);
    }

    /** Stop one running engagement; its salvaged report is the result. */
    method CancelEngagement(callId: CallId) returns (ok: bool, report: Option<Digest>)
      requires OnDisk()
      modifies this`dirs, this`records, this`handed
      ensures OnDisk() && Advances(old(dirs), dirs) && dirs.Keys == old(dirs).Keys
      ensures ok <==> callId in old(dirs) && Unfinalized(old(dirs)[callId])
      ensures !ok ==> dirs == old(dirs) && records == old(records) && handed == old(handed)
      ensures ok ==>
        && dirs[callId].digest.Some?
        && dirs[callId].digest.value.status == if around.transcript(callId, clock).work then Cancelled else Failed
      ensures ok && dirs[callId].home == Scratch ==>
        report == dirs[callId].digest && dirs[callId].read && handed == old(handed) + [callId]
      ensures ok && dirs[callId].home == Legacy ==> report == None && handed == old(handed)
      ensures forall other | other in dirs && other != callId :: dirs[other] == old(dirs)[other]
    {
      hide Sound, Advances, TakenBut;
      report := None;
      AdvancesRefl(dirs);
      if callId !in dirs || !Unfinalized(dirs[callId]) {
        return false, None;
      }
      PendingIsUnread(dirs, records, handed, lost, cut, callId);
      ok := true;
      var digest := Collect(callId, Some(Cancelled));
      ghost var collected := dirs;
      var reports := TakeReports(Some(callId));
      TakeOnly(collected, dirs, callId, reports);
      AdvancesTrans(old(dirs), collected, dirs);
      if reports != [] {
        report := Some(digest);
      }
    }

    /** Kill and close whatever is pending. */
    method Salvage(why: Status)
      requires OnDisk()
      modifies this`dirs, this`records
      ensures OnDisk() && Advances(old(dirs), dirs) && NonePending(dirs)
      ensures SalvagedBut(old(dirs), dirs, {}, why, around, clock)
    {
      var todo := set id | id in dirs && Unfinalized(dirs[id]);
      assert SalvagedBut(dirs, dirs, todo, why, around, clock);
      while todo != {}
        invariant OnDisk()
        invariant SalvagedBut(old(dirs), dirs, todo, why, around, clock)
        invariant forall id | id in todo :: id in dirs && Unfinalized(dirs[id])
        decreases todo
      {
        var id :| id in todo;
        ghost var was := dirs;
        var digest := Collect(id, Some(why));
        Salvages(old(dirs), was, dirs, todo, why, around, clock, id);
        todo := todo - {id};
      }
      SalvageDone(old(dirs), dirs, why, around, clock);
    }

    /** Episode exit: the salvaged reports are returned without a marker. */
    method ShutdownPending() returns (salvaged: set<CallId>)
      requires OnDisk()
      modifies this`dirs, this`records
      ensures OnDisk() && Advances(old(dirs), dirs) && NonePending(dirs) && dirs.Keys == old(dirs).Keys
      ensures salvaged == set id | id in old(dirs) && Unfinalized(old(dirs)[id])
      ensures SalvagedBut(old(dirs), dirs, {}, CrashSalvaged, around, clock)
      ensures SalvagedPlainly(old(dirs), dirs, around, clock)
    {
      salvaged := set id | id in dirs && Unfinalized(dirs[id]);
      Salvage(CrashSalvaged);
      SalvagedIsPlain(old(dirs), dirs, around, clock);
    }

    /** A new process: the counter is read off the directories, orphans are
        killed and salvaged. Valid exactly when no number is above 999. */
    method Reconcile()
      requires OnDisk()
      modifies this`dirs, this`records, this`counter
      ensures OnDisk() && Advances(old(dirs), dirs) && NonePending(dirs) && dirs.Keys == old(dirs).Keys
      ensures forall id | id in dirs && id.number <= 999 :: id.number <= counter
      ensures counter == 0 || exists id :: id in dirs && id.number == counter <= 999
      ensures Valid() <==> forall id | id in dirs :: id.number <= LAST_NUMBER
      ensures SalvagedBut(old(dirs), dirs, {}, CrashSalvaged, around, clock)
      ensures SalvagedPlainly(old(dirs), dirs, around, clock)
    {
      hide Sound, IsHighest, Recognised, Unfinalized, NonePending, SalvagedBut, Advances, Numbered;
      counter := 0;
      NoneIsHighest();
      var todo := dirs.Keys;
      while todo != {}
        invariant OnDisk() && dirs == old(dirs) && todo <= dirs.Keys
        invariant IsHighest(dirs.Keys - todo, counter)
        decreases todo
      {
        var id :| id in todo;
        HighestSoFar(dirs.Keys, todo, counter, id);
        if Recognised(id) > counter {
          counter := Recognised(id);
        }
        todo := todo - {id};
      }
      assert dirs.Keys - todo == dirs.Keys;
      Salvage(CrashSalvaged);
      SalvagedIsPlain(old(dirs), dirs, around, clock);
      HighestMeans(dirs.Keys, counter);
      RecoveredCounter(dirs, counter);
    }

    method Do(op: Op)
      requires Valid()
      modifies this
      ensures OnDisk() && Advances(old(dirs), dirs)
      ensures Valid() <==> op != Restart || forall id | id in dirs :: id.number <= LAST_NUMBER
      ensures match op
        case DoLaunch(role, _, fate) =>
          var id := CallId(role, old(counter) + 1); fate == Started ==> id in dirs && Unfinalized(dirs[id])
        case DoEngage(role, _, fate) =>
          var id := CallId(role, old(counter) + 1); fate == Started ==> id in dirs && dirs[id].read
        case DoContinue(id, _, kept, fate) =>
          fate == Started && kept && Continuable(old(dirs), id) ==>
            exists next :: next in dirs && next !in old(dirs) && Unfinalized(dirs[next])
        case DoPoll => clock == old(clock) && AllWithinBox(dirs, clock) && NoneUndelivered(dirs)
        case DoWait(bound, anyMode) =>
          AllWithinBox(dirs, clock) && NoneUndelivered(dirs) && (bound.Unbounded? && !anyMode ==> NonePending(dirs))
        case DoCancel(id) => id in dirs ==> !Unfinalized(dirs[id])
        case DoShutdown => NonePending(dirs)
        case DoSleep => clock > old(clock)
        case KilledLaunching(role) =>
          CallId(role, old(counter) + 1) in dirs && dirs[CallId(role, old(counter) + 1)].manifest == None
        case KilledCollecting(id) => id in old(dirs) && Unfinalized(old(dirs)[id]) ==> cut == old(cut) + multiset{id}
        case KilledWriting(id) => id in old(dirs) && Unfinalized(old(dirs)[id]) ==> id in dirs && dirs[id].torn.Some?
        case KilledDelivering(id) => id in old(dirs) && Undelivered(old(dirs)[id]) ==> lost == old(lost) + multiset{id}
        case Restart => dirs.Keys == old(dirs).Keys && NonePending(dirs)
    {
      hide Sound, Numbered, Advances, SalvagedBut, Continuable, Homeless, AllWithinBox;
      match op
      case DoLaunch(role, minutes, fate) => var id := Launch(role, minutes, None, fate);
      case DoEngage(role, minutes, fate) => var id, report := Engage(role, minutes, fate);
      case DoContinue(id, minutes, kept, fate) => var next := ContinueEngagement(id, true, minutes, kept, fate);
      case DoPoll =>
        var out := PollCompletions();
        SameKeysNumbered(old(dirs), dirs, counter);
      case DoWait(bound, anyMode) =>
        ghost var before;
        var finished, running;
        finished, running, before := WaitForSeats(bound, anyMode);
        assert forall id | id in dirs && Unfinalized(dirs[id]) :: id in running;
        SameKeysNumbered(old(dirs), dirs, counter);
      case DoCancel(id) =>
        var ok, report := CancelEngagement(id);
        SameKeysNumbered(old(dirs), dirs, counter);
      case DoShutdown =>
        var salvaged := ShutdownPending();
        SameKeysNumbered(old(dirs), dirs, counter);
      case DoSleep =>
        Sleep();
        SameKeysNumbered(old(dirs), dirs, counter);
      case KilledLaunching(role) => DieLaunching(role);
      case KilledCollecting(id) =>
        AdvancesRefl(dirs);
        if id in dirs && Unfinalized(dirs[id]) { DieCollecting(id); }
      case KilledWriting(id) =>
        AdvancesRefl(dirs);
        if id in dirs && Unfinalized(dirs[id]) {
          DieWriting(id);
          SameKeysNumbered(old(dirs), dirs, counter);
        }
      case KilledDelivering(id) =>
        AdvancesRefl(dirs);
        if id in dirs && Undelivered(dirs[id]) {
          DieDelivering(id);
          SameKeysNumbered(old(dirs), dirs, counter);
        }
      case Restart => Reconcile();
    }

    /** Any sequence of verbs, kills and restarts, up to a restart that finds a
        number above 999. Each marker stands for one report handed out, unless a
        kill lost it, so none is handed out twice; each engagement has at most
        one archived digest, and one record row for it plus one for each
        collection cut short; stages only move forward. A report torn by a kill
        is handed out by none of them, and the row a digest names is its own. */
    method Run(ops: seq<Op>) returns (exhausted: bool)
      requires Valid()
      modifies this
      ensures OnDisk() && Advances(old(dirs), dirs)
      ensures exhausted <==> !Valid()
      ensures exhausted ==> exists id :: id in dirs && id.number > LAST_NUMBER
      ensures forall id :: multiset(handed)[id] == (if id in dirs && dirs[id].read then 1 else 0) - lost[id]
      ensures forall id :: multiset(records)[id] <= 1 + cut[id]
      ensures forall id | id in dirs && dirs[id].torn.Some? :: id !in handed
      ensures forall id | id in dirs && dirs[id].digest.Some? && dirs[id].digest.value.record.Some? ::
                var n := dirs[id].digest.value.record.value; 1 <= n <= |records| && records[n - 1] == id
    {
      hide Sound, Advances, Numbered;
      AdvancesRefl(dirs);
      exhausted := false;
      for i := 0 to |ops|
        invariant OnDisk() && Advances(old(dirs), dirs)
        invariant Valid() && !exhausted
      {
        ghost var was := dirs;
        Do(ops[i]);
        AdvancesTrans(old(dirs), was, dirs);
        if ops[i].Restart? && exists id | id in dirs :: id.number > LAST_NUMBER {
          exhausted := true;
          break;
        }
      }
      SoundSays(dirs, records, handed, lost, cut);
    }
  }
}
