/** The life of an engagement (scientist/assistant_tools.py). An engagement is a
    directory; which of its files exist decides its stage. Verbs run one at a
    time; the clock counts quarter seconds, the pause of the polling loops. */
module Engagements {
  import opened Basics

  datatype Role = Searcher | Proposer | Executor | Challenger | Reviewer

  /** `<role>-<episode>-<sequence number>`, for one episode. */
  datatype CallId = CallId(role: Role, number: nat)

  /** The seat area in use, or the one of runs older than it. */
  datatype Home = Scratch | Legacy

  datatype Status = Done | Unparsed | TimeoutSalvaged | CrashSalvaged | Cancelled | Failed

  datatype Manifest = Manifest(role: Role, started: int, box: nat, sessionHint: Option<string>)

  datatype Digest = Digest(role: Role, status: Status, session: Option<string>, finished: int, record: Option<nat>)

  /** `read` is the delivery marker; `alive` is the seat process. A kill in the
      middle of writing `digest.json` leaves a file no reader can take, `torn`
      at some moment, in place of a `digest`. */
  datatype Dir = Dir(home: Home, manifest: Option<Manifest>, digest: Option<Digest>, torn: Option<int>,
                     read: bool, alive: bool)

  /** What a transcript holds: salvageable work, a parsed tail, a session. */
  datatype Transcript = Transcript(work: bool, parsed: bool, session: Option<string>)

  /** What the seats and the disk do, at each moment. */
  datatype Surroundings = Surroundings(
    transcript: (CallId, int) -> Transcript,
    exits: (CallId, int) -> bool,
    lag: int -> nat,
    archives: (CallId, int) -> bool)

  type Dirs = map<CallId, Dir>

  const TICKS_PER_SECOND := 4
  const LAST_NUMBER := 999   // the longest suffix the startup pattern recognises

  // ---- names ----------------------------------------------------------------

  function RoleName(role: Role): string {
    match role
    case Searcher => "searcher"
    case Proposer => "proposer"
    case Executor => "executor"
    case Challenger => "challenger"
    case Reviewer => "reviewer"
  }

  /** `:03d`. */
  function Padded(n: nat): string {
    (if n < 10 then "00" else if n < 100 then "0" else "") + Decimal(n)
  }

  /** The name of an engagement's directory. */
  function Name(episode: string, id: CallId): string {
    RoleName(id.role) + "-" + episode + "-" + Padded(id.number)
  }

  /** Three digits, up to 999; from then on as many as it takes. */
  lemma PaddedExactly(n: nat)
    ensures n <= 999 ==> Padded(n) == [Digit(n / 100), Digit(n / 10 % 10), Digit(n % 10)]
    ensures n > 999 ==> |Padded(n)| > 3 && Padded(n) == Decimal(n)
  {
    if n > 999 {
      assert |Decimal(n / 1000)| >= 1;
      assert |Decimal(n / 100)| >= 2;
    } else if n > 99 {
      assert Decimal(n / 100) == [Digit(n / 100)];
    }
  }

  /** The name of a directory, as the startup pattern and the glob over one role
      read it. */
  lemma NameExactly(episode: string, id: CallId)
    ensures Name(episode, id)
            == (match id.role
                case Searcher => "searcher-"
                case Proposer => "proposer-"
                case Executor => "executor-"
                case Challenger => "challenger-"
                case Reviewer => "reviewer-")
               + episode + "-" + Padded(id.number)
  {
  }

  ghost predicate ByName(episode: string, ids: seq<CallId>) {
    forall i, j | 0 <= i < j < |ids| :: LexLe(Name(episode, ids[i]), Name(episode, ids[j]))
  }

  /** No name among these comes after one still to come. */
  ghost predicate AllBefore(episode: string, ids: seq<CallId>, todo: set<CallId>) {
    forall i, id | 0 <= i < |ids| && id in todo :: LexLe(Name(episode, ids[i]), Name(episode, id))
  }

  predicate FirstByName(episode: string, id: CallId, todo: set<CallId>) {
    id in todo && forall other | other in todo :: LexLe(Name(episode, id), Name(episode, other))
  }

  lemma SomeFirstByName(episode: string, todo: set<CallId>)
    requires todo != {}
    ensures exists id :: FirstByName(episode, id, todo)
  {
    var names := set id | id in todo :: Name(episode, id);
    var some :| some in todo;
    assert Name(episode, some) in names;
    LeastExists(names);
    var least :| IsLeast(least, names);
    var id :| id in todo && Name(episode, id) == least;
    forall other | other in todo ensures LexLe(Name(episode, id), Name(episode, other)) {
      assert Name(episode, other) in names;
    }
    assert FirstByName(episode, id, todo);
  }

  lemma NothingByName(episode: string, todo: set<CallId>)
    ensures ByName(episode, []) && AllBefore(episode, [], todo)
  {
  }

  lemma NextByName(episode: string, ids: seq<CallId>, todo: set<CallId>, id: CallId)
    requires ByName(episode, ids) && AllBefore(episode, ids, todo) && FirstByName(episode, id, todo)
    ensures ByName(episode, ids + [id]) && AllBefore(episode, ids + [id], todo - {id})
    ensures AllBefore(episode, ids, todo - {id})
  {
  }

  // ---- stages ---------------------------------------------------------------

  /** `digest.json` exists, whole or torn. */
  predicate Written(d: Dir) {
    d.digest.Some? || d.torn.Some?
  }

  predicate Unfinalized(d: Dir) {
    d.manifest.Some? && !Written(d)
  }

  predicate Undelivered(d: Dir) {
    d.home == Scratch && d.digest.Some? && !d.read
  }

  /** What looks like an undelivered report to one who does not open it. */
  predicate Unread(d: Dir) {
    d.home == Scratch && Written(d) && !d.read
  }

  /** When the engagement finished: what its digest says, or for want of one the
      time stamp of the torn file. */
  function FinishedAt(d: Dir): Option<int> {
    if d.digest.Some? then Some(d.digest.value.finished) else d.torn
  }

  function Expiry(m: Manifest): int {
    m.started + TICKS_PER_SECOND * m.box
  }

  /** Finished, or past its time box. */
  predicate Due(d: Dir, now: int)
    requires d.manifest.Some?
  {
    !d.alive || now > Expiry(d.manifest.value)
  }

  ghost predicate NonePending(dirs: Dirs) {
    forall id | id in dirs :: !Unfinalized(dirs[id])
  }

  ghost predicate AllWithinBox(dirs: Dirs, now: int) {
    forall id | id in dirs && Unfinalized(dirs[id]) :: dirs[id].alive && now <= Expiry(dirs[id].manifest.value)
  }

  ghost predicate DirSound(d: Dir) {
    && (Written(d) ==> d.manifest.Some? && !d.alive)
    && (d.torn.Some? ==> d.digest == None)
    && (d.read ==> d.digest.Some? && d.home == Scratch)
  }

  /** The session a pending engagement resumes. */
  function Resumed(dirs: Dirs, id: CallId): Option<string> {
    if id in dirs && Unfinalized(dirs[id]) then dirs[id].manifest.value.sessionHint else None
  }

  /** No session is resumed by two pending engagements. */
  ghost predicate HintsDistinct(dirs: Dirs) {
    forall a, b | Resumed(dirs, a).Some? && Resumed(dirs, a) == Resumed(dirs, b) :: a == b
  }

  ghost predicate Numbered(dirs: Dirs, counter: nat) {
    forall id | id in dirs :: id.number <= counter
  }

  function Archived(dirs: Dirs, id: CallId): nat {
    if id in dirs && dirs[id].digest.Some? && dirs[id].digest.value.record.Some? then 1 else 0
  }

  /** One record row for each archived digest and each collection cut short;
      the row a digest names is its own. */
  ghost predicate RecordsMatch(dirs: Dirs, records: seq<CallId>, cut: multiset<CallId>) {
    && (forall id :: multiset(records)[id] == Archived(dirs, id) + cut[id])
    && (forall id | id in dirs && Archived(dirs, id) == 1 ::
          var n := dirs[id].digest.value.record.value; 1 <= n <= |records| && records[n - 1] == id)
  }

  /** Every marker touched stands for one report handed out or one lost on the
      way, and for nothing else. */
  ghost predicate HandedOnce(dirs: Dirs, handed: seq<CallId>, lost: multiset<CallId>) {
    forall id :: multiset(handed)[id] + lost[id] == if id in dirs && dirs[id].read then 1 else 0
  }

  /** Stages only move forward and a manifest, a digest, a marker stay; a torn
      digest is never mended. */
  ghost predicate Advances(was: Dirs, now: Dirs) {
    forall id | id in was :: id in now && DirAdvances(was[id], now[id])
  }

  ghost predicate DirAdvances(a: Dir, b: Dir) {
    && a.home == b.home
    && (a.manifest.Some? ==> b.manifest == a.manifest)
    && (a.digest.Some? ==> b.digest == a.digest)
    && (a.torn.Some? ==> b.torn == a.torn && b.digest == a.digest)
    && (a.read ==> b.read)
  }

  /** What survives every kill. */
  ghost predicate Sound(dirs: Dirs, records: seq<CallId>, handed: seq<CallId>, lost: multiset<CallId>,
                       cut: multiset<CallId>) {
    && (forall id | id in dirs :: DirSound(dirs[id]))
    && RecordsMatch(dirs, records, cut)
    && HandedOnce(dirs, handed, lost)
    && HintsDistinct(dirs)
  }

  /** What the books say: a marker stands for one report handed out or lost, an
      engagement has one row and one more for each collection cut short, the row
      a digest names is its own, and a torn report was never handed out. */
  lemma SoundSays(dirs: Dirs, records: seq<CallId>, handed: seq<CallId>, lost: multiset<CallId>, cut: multiset<CallId>)
    requires Sound(dirs, records, handed, lost, cut)
    ensures forall id :: multiset(handed)[id] == (if id in dirs && dirs[id].read then 1 else 0) - lost[id]
    ensures forall id :: multiset(records)[id] <= 1 + cut[id]
    ensures forall id | id in dirs && dirs[id].torn.Some? :: id !in handed
    ensures forall id | id in dirs && dirs[id].digest.Some? && dirs[id].digest.value.record.Some? ::
              var n := dirs[id].digest.value.record.value; 1 <= n <= |records| && records[n - 1] == id
  {
    hide HintsDistinct;
    forall id | id in dirs && dirs[id].digest.Some? && dirs[id].digest.value.record.Some?
      ensures Archived(dirs, id) == 1 { }
    forall id | id in dirs && dirs[id].torn.Some? ensures id !in handed {
      assert multiset(handed)[id] == 0;
    }
  }

  // ---- finalizing -----------------------------------------------------------

  function StatusOf(hint: Option<Status>, raw: Transcript): Status {
    match hint
    case Some(s) => if raw.work then s else Failed
    case None => if raw.parsed then Done else Unparsed
  }

  ghost predicate Collected(was: Dir, now: Dir, hint: Option<Status>, raw: Transcript, clock: int) {
    && was.manifest.Some? && now.digest.Some?
    && now == was.(alive := false, digest := now.digest, torn := None)
    && now.digest.value.role == was.manifest.value.role
    && now.digest.value.status == StatusOf(hint, raw)
    && now.digest.value.session == raw.session
    && now.digest.value.finished == clock
  }

  function SweepHint(d: Dir): Option<Status> {
    if d.alive then Some(TimeoutSalvaged) else None
  }

  ghost predicate Sweepable(dirs: Dirs, id: CallId, clock: int) {
    id in dirs && Unfinalized(dirs[id]) && Due(dirs[id], clock)
  }

  /** A sweep that has yet to look at `todo`: the due ones seen were collected,
      as timed out if alive, and nothing else changed. */
  ghost predicate SweptBut(was: Dirs, now: Dirs, todo: set<CallId>, around: Surroundings, clock: int) {
    && now.Keys == was.Keys
    && forall id | id in was ::
         if id !in todo && Sweepable(was, id, clock)
         then Collected(was[id], now[id], SweepHint(was[id]), around.transcript(id, clock), clock)
         else now[id] == was[id]
  }

  lemma SweepSkips(was: Dirs, now: Dirs, todo: set<CallId>, around: Surroundings, clock: int, id: CallId)
    requires SweptBut(was, now, todo, around, clock) && id in todo && !Sweepable(now, id, clock)
    ensures SweptBut(was, now, todo - {id}, around, clock)
  {
  }

  lemma SweepCollects(was: Dirs, now: Dirs, next: Dirs, todo: set<CallId>, around: Surroundings, clock: int, id: CallId)
    requires SweptBut(was, now, todo, around, clock) && id in todo && Sweepable(now, id, clock)
    requires next.Keys == now.Keys && forall other | other in now && other != id :: next[other] == now[other]
    requires Collected(now[id], next[id], SweepHint(now[id]), around.transcript(id, clock), clock)
    ensures SweptBut(was, next, todo - {id}, around, clock)
  {
  }

  /** What a sweep leaves, in plain terms: an engagement is finalized if its seat
      has exited, as done or unparsed by its transcript, or if its box of so many
      seconds is over, as timed out or, without work to show, failed. */
  ghost predicate SweptPlainly(was: Dirs, now: Dirs, around: Surroundings, clock: int) {
    forall id | id in was && was[id].manifest.Some? && was[id].digest == None && was[id].torn == None ::
      && id in now
      && var d, m, raw := was[id], was[id].manifest.value, around.transcript(id, clock);
      && (now[id].digest.Some? <==> !d.alive || clock - m.started > 4 * m.box)
      && (now[id].digest.Some? ==>
            var status := now[id].digest.value.status;
            if d.alive then status == if raw.work then TimeoutSalvaged else Failed
            else status == if raw.parsed then Done else Unparsed)
  }

  lemma SweptIsPlain(was: Dirs, now: Dirs, around: Surroundings, clock: int)
    requires SweptBut(was, now, {}, around, clock)
    ensures SweptPlainly(was, now, around, clock)
  {
  }

  lemma SweepDone(was: Dirs, now: Dirs, around: Surroundings, clock: int)
    requires SweptBut(was, now, {}, around, clock)
    ensures AllWithinBox(now, clock)
    ensures Advances(was, now)
    ensures forall id | id in was && Unfinalized(now[id]) :: now[id] == was[id]
  {
  }

  /** Delivery that has yet to look at `todo`. */
  ghost predicate TakenBut(was: Dirs, now: Dirs, todo: set<CallId>, only: Option<CallId>, out: seq<CallId>) {
    && now.Keys == was.Keys && todo <= was.Keys && Distinct(out)
    && (forall id ::
          id in out <==> id in was && id !in todo && Undelivered(was[id]) && (only == None || only == Some(id)))
    && (forall id | id in was :: now[id] == if id in out then was[id].(read := true) else was[id])
  }

  lemma TakeSkips(was: Dirs, now: Dirs, todo: set<CallId>, only: Option<CallId>, out: seq<CallId>, id: CallId)
    requires TakenBut(was, now, todo, only, out) && id in todo
    requires !((only == None || only == Some(id)) && Undelivered(now[id]))
    ensures TakenBut(was, now, todo - {id}, only, out)
  {
  }

  lemma TakeMarks(was: Dirs, now: Dirs, todo: set<CallId>, only: Option<CallId>, out: seq<CallId>, id: CallId)
    requires TakenBut(was, now, todo, only, out) && id in todo
    requires (only == None || only == Some(id)) && Undelivered(now[id])
    ensures TakenBut(was, now[id := now[id].(read := true)], todo - {id}, only, out + [id])
  {
    assert id !in out;
    forall other ensures other in out + [id] <==> other in out || other == id { }
  }

  lemma TakeDone(was: Dirs, now: Dirs, only: Option<CallId>, out: seq<CallId>)
    requires TakenBut(was, now, {}, only, out)
    ensures Advances(was, now)
  {
  }

  /** A poll: nothing finished is left undelivered, nothing pending is overdue,
      and what came out is what got its marker now. */
  ghost predicate Polled(was: Dirs, now: Dirs, out: seq<CallId>, clock: int) {
    && now.Keys == was.Keys && AllWithinBox(now, clock) && Distinct(out)
    && (forall id | id in now :: !Undelivered(now[id]))
    && (forall id :: id in out <==> id in now && !was[id].read && now[id].read)
  }

  lemma SweepThenTake(was: Dirs, swept: Dirs, now: Dirs, out: seq<CallId>, around: Surroundings, clock: int)
    requires SweptBut(was, swept, {}, around, clock) && AllWithinBox(swept, clock)
    requires TakenBut(swept, now, {}, None, out)
    ensures Polled(was, now, out, clock) && Advances(was, now)
  {
  }

  /** Salvage that has yet to look at `todo`: every pending engagement seen was
      killed and closed as `why`, and nothing else changed. */
  ghost predicate SalvagedBut(was: Dirs, now: Dirs, todo: set<CallId>, why: Status, around: Surroundings, clock: int) {
    && now.Keys == was.Keys
    && forall id | id in was ::
         if id !in todo && Unfinalized(was[id])
         then Collected(was[id], now[id], Some(why), around.transcript(id, clock), clock)
         else now[id] == was[id]
  }

  lemma Salvages(was: Dirs, now: Dirs, next: Dirs, todo: set<CallId>, why: Status, around: Surroundings, clock: int,
                 id: CallId)
    requires SalvagedBut(was, now, todo, why, around, clock) && id in todo && id in now && Unfinalized(now[id])
    requires next.Keys == now.Keys && forall other | other in now && other != id :: next[other] == now[other]
    requires Collected(now[id], next[id], Some(why), around.transcript(id, clock), clock)
    ensures SalvagedBut(was, next, todo - {id}, why, around, clock)
  {
  }

  lemma SalvageDone(was: Dirs, now: Dirs, why: Status, around: Surroundings, clock: int)
    requires SalvagedBut(was, now, {}, why, around, clock)
    ensures NonePending(now) && Advances(was, now)
  {
  }

  /** A salvage closes what is pending as a crash, or as failed for want of work. */
  ghost predicate SalvagedPlainly(was: Dirs, now: Dirs, around: Surroundings, clock: int) {
    forall id | id in was && was[id].manifest.Some? && was[id].digest == None && was[id].torn == None ::
      && id in now && now[id].digest.Some?
      && now[id].digest.value.status == if around.transcript(id, clock).work then CrashSalvaged else Failed
  }

  lemma SalvagedIsPlain(was: Dirs, now: Dirs, around: Surroundings, clock: int)
    requires SalvagedBut(was, now, {}, CrashSalvaged, around, clock)
    ensures SalvagedPlainly(was, now, around, clock)
  {
  }

  lemma SameKeysNumbered(was: Dirs, now: Dirs, counter: nat)
    requires Numbered(was, counter) && now.Keys == was.Keys
    ensures Numbered(now, counter)
  {
    forall id | id in now ensures id.number <= counter { assert id in was.Keys; }
  }

  /** What sweeping and sleeping amount to: no marker moves, nothing is torn, and
      nothing becomes pending. */
  ghost predicate Waited(was: Dirs, now: Dirs) {
    && now.Keys == was.Keys && Advances(was, now)
    && (forall id | id in now :: now[id].read == was[id].read && now[id].torn == was[id].torn)
    && (forall id | id in now && Unfinalized(now[id]) :: Unfinalized(was[id]))
  }

  lemma WaitedRefl(dirs: Dirs)
    ensures Waited(dirs, dirs)
  {
  }

  lemma WaitedTrans(a: Dirs, b: Dirs, c: Dirs)
    requires Waited(a, b) && Waited(b, c)
    ensures Waited(a, c)
  {
  }

  lemma SweepWaits(was: Dirs, now: Dirs, around: Surroundings, clock: int)
    requires SweptBut(was, now, {}, around, clock)
    ensures Waited(was, now)
  {
  }

  lemma StillExpireBy(was: Dirs, now: Dirs, last: int)
    requires Waited(was, now) && ExpireBy(was, last)
    ensures ExpireBy(now, last)
  {
    forall id | id in now && Unfinalized(now[id]) ensures Expiry(now[id].manifest.value) <= last {
      assert Unfinalized(was[id]) && DirAdvances(was[id], now[id]);
    }
  }

  lemma BeforeLast(dirs: Dirs, last: int, now: int)
    requires ExpireBy(dirs, last) && AllWithinBox(dirs, now) && !NonePending(dirs)
    ensures now <= last
  {
  }

  ghost predicate ExpireBy(dirs: Dirs, last: int) {
    forall id | id in dirs && Unfinalized(dirs[id]) :: Expiry(dirs[id].manifest.value) <= last
  }

  lemma TakeOne(was: Dirs, now: Dirs, id: CallId, out: seq<CallId>)
    requires TakenBut(was, now, {}, Some(id), out) && id in was && Undelivered(was[id])
    ensures out == [id] && now == was[id := was[id].(read := true)]
  {
    assert id in out;
    forall j | 0 <= j < |out| ensures out[j] == id { assert out[j] in out; }
    assert Elements(out) == {id};
    DistinctCount(out);
  }

  /** Launched, waited for, taken: one report of its own, everyone else's left. */
  lemma EngagedAlone(was: Dirs, launched: Dirs, finished: Dirs, now: Dirs, id: CallId, out: seq<CallId>)
    requires id in launched && launched[id].home == Scratch && !launched[id].read
    requires id !in was && forall other | other in was :: other in launched && launched[other] == was[other]
    requires Waited(launched, finished) && finished[id].digest.Some?
    requires TakenBut(finished, now, {}, Some(id), out)
    ensures out == [id] && now.Keys == launched.Keys && Advances(was, now)
    ensures now[id].read && now[id].digest == finished[id].digest
    ensures forall other | other in was :: now[other].read == was[other].read
  {
    assert DirAdvances(launched[id], finished[id]);
    TakeOne(finished, now, id, out);
    forall other | other in was ensures DirAdvances(was[other], now[other]) && now[other].read == was[other].read {
      assert now[other] == finished[other] && DirAdvances(launched[other], finished[other]);
    }
  }

  lemma TakeOnly(was: Dirs, now: Dirs, id: CallId, out: seq<CallId>)
    requires TakenBut(was, now, {}, Some(id), out) && id in was
    ensures if Undelivered(was[id]) then out == [id] && now == was[id := was[id].(read := true)]
            else out == [] && now == was
  {
    if Undelivered(was[id]) {
      TakeOne(was, now, id, out);
    } else {
      assert Elements(out) == {};
      DistinctCount(out);
    }
  }

  lemma TakeAll(first: Dirs, was: Dirs, now: Dirs, out: seq<CallId>, clock: int)
    requires TakenBut(was, now, {}, None, out) && AllWithinBox(was, clock) && Waited(first, was)
    ensures Polled(first, now, out, clock) && Advances(first, now)
    ensures NonePending(was) <==> NonePending(now)
    ensures (exists id :: id in was && Undelivered(was[id])) ==> out != []
  {
    TakeDone(was, now, None, out);
    AdvancesTrans(first, was, now);
  }

  /** What `continue_engagement` asks of the record and of what is running. */
  ghost predicate Continuable(dirs: Dirs, id: CallId) {
    && id in dirs && dirs[id].digest.Some?
    && var digest := dirs[id].digest.value;
    && digest.role == Executor && digest.status != Failed && digest.session.Some?
    && forall other :: Resumed(dirs, other) != digest.session
  }

  lemma RecordRow(dirs: Dirs, records: seq<CallId>, cut: multiset<CallId>, id: CallId, d: Dir, noted: bool)
    requires RecordsMatch(dirs, records, cut)
    requires id in dirs && dirs[id].digest == None
    requires d.digest.Some? && d.digest.value.record == (if noted then Some(|records| + 1) else None)
    ensures RecordsMatch(dirs[id := d], if noted then records + [id] else records, cut)
  {
    var after := if noted then records + [id] else records;
    assert multiset(records + [id]) == multiset(records) + multiset{id};
    assert Archived(dirs, id) == 0;
    forall other ensures multiset(after)[other] == Archived(dirs[id := d], other) + cut[other] {
      assert other != id ==> Archived(dirs[id := d], other) == Archived(dirs, other);
    }
  }

  lemma CutRow(dirs: Dirs, records: seq<CallId>, cut: multiset<CallId>, id: CallId)
    requires RecordsMatch(dirs, records, cut)
    ensures RecordsMatch(dirs, records + [id], cut + multiset{id})
  {
    assert multiset(records + [id]) == multiset(records) + multiset{id};
  }

  lemma CollectIsSound(dirs: Dirs, records: seq<CallId>, handed: seq<CallId>, lost: multiset<CallId>,
                       cut: multiset<CallId>,
                       id: CallId, digest: Digest, noted: bool)
    requires Sound(dirs, records, handed, lost, cut) && id in dirs
    requires dirs[id].manifest.Some? && dirs[id].digest == None
    requires digest.record == if noted then Some(|records| + 1) else None
    ensures var now := dirs[id := dirs[id].(digest := Some(digest), torn := None, alive := false)];
      && Sound(now, if noted then records + [id] else records, handed, lost, cut)
      && (dirs[id].torn == None ==> Advances(dirs, now))
  {
    var closed := dirs[id].(digest := Some(digest), torn := None, alive := false);
    RecordRow(dirs, records, cut, id, closed, noted);
    SameMarkers(dirs, dirs[id := closed], handed, lost);
    FewerUnfinalized(dirs, dirs[id := closed]);
  }

  /** The digest is torn, its record row written or not. */
  lemma TearIsSound(dirs: Dirs, records: seq<CallId>, handed: seq<CallId>, lost: multiset<CallId>,
                       cut: multiset<CallId>, id: CallId, moment: int)
    requires Sound(dirs, records, handed, lost, cut) && id in dirs && Unfinalized(dirs[id])
    ensures var now := dirs[id := dirs[id].(torn := Some(moment), alive := false)];
      && Sound(now, records, handed, lost, cut)
      && Sound(now, records + [id], handed, lost, cut + multiset{id})
      && Advances(dirs, now)
  {
    var now := dirs[id := dirs[id].(torn := Some(moment), alive := false)];
    SameDigests(dirs, now, records, cut);
    CutRow(now, records, cut, id);
    SameMarkers(dirs, now, handed, lost);
    FewerUnfinalized(dirs, now);
  }

  lemma SameDigests(was: Dirs, now: Dirs, records: seq<CallId>, cut: multiset<CallId>)
    requires RecordsMatch(was, records, cut)
    requires forall id | id in was :: id in now && now[id].digest == was[id].digest
    requires forall id | id in now && id !in was :: now[id].digest == None
    ensures RecordsMatch(now, records, cut)
  {
    forall id ensures Archived(now, id) == Archived(was, id) { }
  }

  lemma SameMarkers(was: Dirs, now: Dirs, handed: seq<CallId>, lost: multiset<CallId>)
    requires HandedOnce(was, handed, lost)
    requires forall id | id in was :: id in now && now[id].read == was[id].read
    requires forall id | id in now && id !in was :: !now[id].read
    ensures HandedOnce(now, handed, lost)
  {
    forall id ensures (id in now && now[id].read) == (id in was && was[id].read) { }
  }

  /** A marker is touched: the report reaches its reader, or is lost. */
  lemma HandOver(dirs: Dirs, handed: seq<CallId>, lost: multiset<CallId>, id: CallId)
    requires HandedOnce(dirs, handed, lost) && id in dirs && !dirs[id].read
    ensures HandedOnce(dirs[id := dirs[id].(read := true)], handed + [id], lost)
    ensures HandedOnce(dirs[id := dirs[id].(read := true)], handed, lost + multiset{id})
  {
    assert multiset(handed + [id]) == multiset(handed) + multiset{id};
    assert multiset(handed)[id] + lost[id] == 0;
  }

  /** A directory is born: empty, or with a manifest whose session nobody is
      resuming. */
  lemma BirthIsSound(dirs: Dirs, records: seq<CallId>, handed: seq<CallId>, lost: multiset<CallId>,
                       cut: multiset<CallId>, id: CallId, d: Dir)
    requires Sound(dirs, records, handed, lost, cut) && id !in dirs
    requires !Written(d) && !d.read
    requires d.manifest.Some? && d.manifest.value.sessionHint.Some? ==>
      forall other :: Resumed(dirs, other) != d.manifest.value.sessionHint
    ensures Sound(dirs[id := d], records, handed, lost, cut) && Advances(dirs, dirs[id := d])
  {
    hide RecordsMatch, HandedOnce;
    SameDigests(dirs, dirs[id := d], records, cut);
    SameMarkers(dirs, dirs[id := d], handed, lost);
    var now := dirs[id := d];
    forall a, b | Resumed(now, a).Some? && Resumed(now, a) == Resumed(now, b) ensures a == b {
      assert a != id ==> Resumed(now, a) == Resumed(dirs, a);
      assert b != id ==> Resumed(now, b) == Resumed(dirs, b);
    }
  }

  function Breathe(dirs: Dirs, exits: (CallId, int) -> bool, now: int): Dirs {
    map id | id in dirs :: dirs[id].(alive := dirs[id].alive && !exits(id, now))
  }

  lemma BreatheIsSound(dirs: Dirs, records: seq<CallId>, handed: seq<CallId>, lost: multiset<CallId>,
                       cut: multiset<CallId>,
                       exits: (CallId, int) -> bool, now: int)
    requires Sound(dirs, records, handed, lost, cut)
    ensures Sound(Breathe(dirs, exits, now), records, handed, lost, cut) && Advances(dirs, Breathe(dirs, exits, now))
  {
    var later := Breathe(dirs, exits, now);
    SameDigests(dirs, later, records, cut);
    SameMarkers(dirs, later, handed, lost);
    FewerUnfinalized(dirs, later);
  }

  lemma MarkIsSound(dirs: Dirs, records: seq<CallId>, handed: seq<CallId>, lost: multiset<CallId>,
                       cut: multiset<CallId>, id: CallId)
    requires Sound(dirs, records, handed, lost, cut) && id in dirs && Undelivered(dirs[id])
    ensures var now := dirs[id := dirs[id].(read := true)];
      && Sound(now, records, handed + [id], lost, cut) && Sound(now, records, handed, lost + multiset{id}, cut)
      && Advances(dirs, now)
  {
    var now := dirs[id := dirs[id].(read := true)];
    HandOver(dirs, handed, lost, id);
    SameDigests(dirs, now, records, cut);
    FewerUnfinalized(dirs, now);
  }

  lemma AdvancesRefl(dirs: Dirs)
    ensures Advances(dirs, dirs)
  {
  }

  lemma PendingIsUnread(dirs: Dirs, records: seq<CallId>, handed: seq<CallId>, lost: multiset<CallId>,
                       cut: multiset<CallId>, id: CallId)
    requires Sound(dirs, records, handed, lost, cut) && id in dirs && Unfinalized(dirs[id])
    ensures !dirs[id].read
  {
  }

  lemma NumberedMore(dirs: Dirs, id: CallId, d: Dir, counter: nat)
    requires Numbered(dirs, counter) && id.number == counter + 1
    ensures id !in dirs && Numbered(dirs[id := d], counter + 1)
  {
  }

  lemma NumberedLater(dirs: Dirs, counter: nat)
    requires Numbered(dirs, counter)
    ensures Numbered(dirs, counter + 1)
  {
  }

  lemma AdvancesTrans(a: Dirs, b: Dirs, c: Dirs)
    requires Advances(a, b) && Advances(b, c)
    ensures Advances(a, c)
  {
  }

  /** Finalizing only takes an engagement out of the unfinalized ones. */
  lemma FewerUnfinalized(was: Dirs, now: Dirs)
    requires HintsDistinct(was)
    requires forall id | id in now && Unfinalized(now[id]) ::
               id in was && Unfinalized(was[id]) && now[id].manifest == was[id].manifest
    ensures HintsDistinct(now)
  {
    forall id ensures Resumed(now, id).Some? ==> Resumed(now, id) == Resumed(was, id) { }
  }

  /** A moment by which every pending box has expired. */
  lemma Horizon(dirs: Dirs) returns (last: int)
    ensures ExpireBy(dirs, last)
    decreases |dirs|
  {
    if dirs == map[] {
      last := 0;
    } else {
      var id :| id in dirs;
      var rest := dirs - {id};
      var sooner := Horizon(rest);
      var mine := if Unfinalized(dirs[id]) then Expiry(dirs[id].manifest.value) else sooner;
      last := if mine > sooner then mine else sooner;
      forall other | other in dirs && Unfinalized(dirs[other]) ensures Expiry(dirs[other].manifest.value) <= last {
        if other != id { assert other in rest && rest[other] == dirs[other]; }
      }
    }
  }

  // ---- call ids -------------------------------------------------------------

  /** The number the startup pattern reads off a directory name: three digits
      at the end, so none from 1000 on. */
  function Recognised(id: CallId): nat {
    if id.number <= LAST_NUMBER then id.number else 0
  }

  ghost predicate IsHighest(ids: set<CallId>, n: nat) {
    && (forall id | id in ids :: Recognised(id) <= n)
    && (n == 0 || exists id | id in ids :: Recognised(id) == n)
  }

  /** The highest number the pattern recognises, in plain terms. */
  lemma HighestMeans(ids: set<CallId>, n: nat)
    requires IsHighest(ids, n)
    ensures forall id | id in ids && id.number <= 999 :: id.number <= n
    ensures n == 0 || exists id :: id in ids && id.number == n <= 999
  {
    if n != 0 { var id :| id in ids && Recognised(id) == n; }
  }

  lemma HighestOfOneMore(ids: set<CallId>, n: nat, id: CallId)
    requires IsHighest(ids, n)
    ensures IsHighest(ids + {id}, if Recognised(id) > n then Recognised(id) else n)
  {
    if Recognised(id) <= n && n != 0 {
      var top :| top in ids && Recognised(top) == n;
      assert top in ids + {id};
    } else if Recognised(id) > n {
      assert id in ids + {id};
    }
  }

  lemma NoneIsHighest()
    ensures forall ids: set<CallId> | ids == {} :: IsHighest(ids, 0)
  {
  }

  lemma HighestSoFar(all: set<CallId>, todo: set<CallId>, n: nat, id: CallId)
    requires IsHighest(all - todo, n) && id in todo && todo <= all
    ensures IsHighest(all - (todo - {id}), if Recognised(id) > n then Recognised(id) else n)
  {
    HighestOfOneMore(all - todo, n, id);
    assert all - (todo - {id}) == all - todo + {id};
  }

  /** The counter recovered at startup is past every number on disk exactly
      when no number has outgrown the pattern. */
  lemma RecoveredCounter(dirs: Dirs, n: nat)
    requires IsHighest(dirs.Keys, n)
    ensures Numbered(dirs, n) <==> forall id | id in dirs :: id.number <= LAST_NUMBER
  {
    assert n <= LAST_NUMBER;
    forall id | id in dirs && id.number <= LAST_NUMBER ensures id.number <= n {
      assert id in dirs.Keys;
    }
  }

  /** After number 1000 has been used, a restart deals it again. */
  lemma NumbersRunOut(dirs: Dirs, n: nat)
    requires IsHighest(dirs.Keys, n)
    requires CallId(Executor, 999) in dirs && CallId(Executor, 1000) in dirs
    ensures CallId(Executor, n + 1) in dirs
  {
    assert CallId(Executor, 999) in dirs.Keys;
  }
}
