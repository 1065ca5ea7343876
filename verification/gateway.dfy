/** The life of one request through the gateway: every exit path of the two handlers, with what the
    deferred calls do on each. Outcomes of the network are inputs. */
module Gateway {
  import opened Text
  import opened RedisKeys
  import L = Limiter
  import Ledger

  // ---------------------------------------------------------------- requests

  /** Why `authenticate` turned a request away. */
  datatype Denial =
    | MissingAuth
    | UnknownUser
    | UserDisabled
    | UserExpired
    | WrongPassword
    | QuotaExceeded
    | ConcurrencyExceeded

  datatype Picked = Picked(node: nat, detectedRegion: string, expectedRegion: string, targetDial: bool)

  datatype Response = Response(status: int, written: nat)

  /** When the context of a request ends, for instance because the client hangs up: never before the
      handler returns, after the answer but before the traffic record, after it but before the limiter
      hears of the end of the request, or between the two commands it is told with. */
  datatype ContextEnd = Never | BeforeRecord | BeforeRelease | DuringRelease

  /** A plain request, of the uid its header names: what each stage comes to, if it is reached. */
  datatype HttpRequest =
    HttpRequest(uid: Uid, denied: Option<Denial>, picked: Option<Picked>, dialed: bool, sent: bool,
                response: Option<Response>, contentLength: int, hour: nat, ends: ContextEnd)

  /** A CONNECT request. */
  datatype ConnectRequest =
    ConnectRequest(uid: Uid, denied: Option<Denial>, picked: Option<Picked>, hijacked: bool, dialed: bool,
                   established: bool, upload: nat, download: nat, hour: nat, ends: ContextEnd)

  // ---------------------------------------------------------------- answers and records

  function StatusOf(d: Denial): int {
    match d
    case QuotaExceeded => 403
    case UserDisabled => 403
    case UserExpired => 403
    case ConcurrencyExceeded => 429
    case _ => 407
  }

  /** `isAuthFailure`: errors of the credentials, not of the account. */
  predicate IsAuthFailure(d: Denial) {
    match d
    case QuotaExceeded => false
    case UserDisabled => false
    case UserExpired => false
    case ConcurrencyExceeded => false
    case _ => true
  }

  /** `pickRegion` */
  function RegionOf(p: Picked): string {
    if p.detectedRegion != "" then p.detectedRegion else p.expectedRegion
  }

  /** `safeContentLength` */
  function SafeLength(length: int): nat {
    if length < 0 then 0 else length
  }

  /** The record of a relayed request: one request of the user through the node, what the client
      announced as upload, what was written to it as download. */
  predicate RecordsHttp(rec: Ledger.TrafficRecord, r: HttpRequest) {
    && HttpRelayed(r) && rec.uid == r.uid && rec.node == r.picked.value.node && rec.requests == 1 && rec.hour == r.hour
    && rec.upload == (if r.contentLength >= 0 then r.contentLength else 0)
    && rec.download == r.response.value.written
    && (r.picked.value.detectedRegion != "" ==> rec.region == r.picked.value.detectedRegion)
    && (r.picked.value.detectedRegion == "" ==> rec.region == r.picked.value.expectedRegion)
  }

  predicate RecordsConnect(rec: Ledger.TrafficRecord, r: ConnectRequest) {
    && Tunnelled(r) && rec.uid == r.uid && rec.node == r.picked.value.node && rec.requests == 1 && rec.hour == r.hour
    && rec.upload == r.upload && rec.download == r.download
    && (r.picked.value.detectedRegion != "" ==> rec.region == r.picked.value.detectedRegion)
    && (r.picked.value.detectedRegion == "" ==> rec.region == r.picked.value.expectedRegion)
  }

  /** A relayed request whose context is live when the record is sent. */
  predicate HttpRecorded(r: HttpRequest) {
    HttpRelayed(r) && r.ends != BeforeRecord
  }

  /** One more record for a request that was relayed and whose context is still live, none for any
      other: the record goes out under the context of the request and its error is ignored. */
  predicate RecordedHttp(before: seq<Ledger.TrafficRecord>, after: seq<Ledger.TrafficRecord>, r: HttpRequest) {
    if HttpRecorded(r) then after != [] && Front(after) == before && RecordsHttp(Last(after), r) else after == before
  }

  /** One more record for a tunnel, whatever became of the context: it goes out under one of its own. */
  predicate RecordedConnect(before: seq<Ledger.TrafficRecord>, after: seq<Ledger.TrafficRecord>, r: ConnectRequest) {
    if Tunnelled(r) then after != [] && Front(after) == before && RecordsConnect(Last(after), r) else after == before
  }

  // ---------------------------------------------------------------- what a request is about

  /** The whole request was relayed. */
  predicate HttpRelayed(r: HttpRequest) {
    r.denied.None? && r.picked.Some? && r.dialed && r.sent && r.response.Some?
  }

  predicate Tunnelled(r: ConnectRequest) {
    && r.denied.None? && r.picked.Some? && r.hijacked && r.dialed
    && (!r.picked.value.targetDial ==> r.established)
  }

  /** The answer to a plain request: why it was denied, what upstream said, or that there is no way
      through. */
  function HttpStatus(r: HttpRequest): int {
    if r.denied.Some? then StatusOf(r.denied.value)
    else if HttpRelayed(r) then r.response.value.status
    else 502
  }

  function ConnectStatus(r: ConnectRequest): int {
    if r.denied.Some? then StatusOf(r.denied.value)
    else if r.picked.Some? && !r.hijacked then 500
    else if Tunnelled(r) then 200
    else 502
  }

  /** The limiter commands of a request: none when it was denied before the limiter; else it arrives and
      is undone, or reads the counter and finishes, as far as the context lets it. */
  function LimiterCommands(id: nat, denied: Option<Denial>, ends: ContextEnd): seq<L.Step> {
    match denied
    case None => [L.Arrive(id)] + LeaveCommands(id, ends)
    case Some(ConcurrencyExceeded) => [L.Arrive(id), if ends == Never then L.Undo(id) else L.LoseUndo(id)]
    case Some(_) => []
  }

  function LeaveCommands(id: nat, ends: ContextEnd): seq<L.Step> {
    match ends
    case Never => [L.Read(id), L.Finish(id)]
    case DuringRelease => [L.Read(id), L.LoseRelease(id)]
    case _ => [L.LoseRelease(id)]
  }

  datatype Metrics = Metrics(authFailures: nat, requests: nat, connects: nat, selectionFailures: nat,
                             upstreamFailures: nat)

  /** Every request is counted once: as failed credentials when it is answered 407, as a request when
      it got in, and then at most once as a failure to select a node or to get through it. */
  function CountedAs(m: Metrics, denied: Option<Denial>, connect: bool, unselected: bool, failed: bool): Metrics {
    if denied.Some? then (if StatusOf(denied.value) == 407 then m.(authFailures := m.authFailures + 1) else m)
    else
      m.(requests := m.requests + if connect then 0 else 1,
         connects := m.connects + if connect then 1 else 0,
         selectionFailures := m.selectionFailures + if unselected then 1 else 0,
         upstreamFailures := m.upstreamFailures + if failed then 1 else 0)
  }

  // ---------------------------------------------------------------- the handlers

  /** What the handlers did so far for one request and on the shared gauge and metrics. */
  class Gateway {
    var commands: seq<L.Step>
    var answers: seq<int>
    var records: seq<Ledger.TrafficRecord>
    var tunnels: int
    var metrics: Metrics

    constructor ()
      ensures commands == [] && answers == [] && records == [] && tunnels == 0 && metrics == Metrics(0, 0, 0, 0, 0)
    {
      commands, answers, records, tunnels := [], [], [], 0;
      metrics := Metrics(0, 0, 0, 0, 0);
    }

    /** The limiter half of `authenticate`. */
    method Enter(id: nat, denied: Option<Denial>, ends: ContextEnd)
      modifies this`commands
      ensures commands == old(commands) + if denied.None? then [L.Arrive(id)] else LimiterCommands(id, denied, ends)
    {
      if denied.Some? && !denied.value.ConcurrencyExceeded? { return; }
      commands := commands + [L.Arrive(id)];
      if denied.Some? {
        commands := commands + [if ends == Never then L.Undo(id) else L.LoseUndo(id)];
      }
    }

    /** `Release`: the counter is read, then deleted or lowered, unless the context ended before. */
    method Leave(id: nat, ends: ContextEnd)
      modifies this`commands
      ensures commands == old(commands) + LeaveCommands(id, ends)
    {
      if ends == BeforeRecord || ends == BeforeRelease {
        commands := commands + [L.LoseRelease(id)];
        return;
      }
      commands := commands + [L.Read(id)];
      if ends == DuringRelease {
        commands := commands + [L.LoseRelease(id)];
      } else {
        commands := commands + [L.Finish(id)];
      }
    }

    method Answer(status: int)
      modifies this`answers
      ensures answers == old(answers) + [status]
    {
      answers := answers + [status];
    }

    method Deny(denial: Denial)
      modifies this`answers, this`metrics
      ensures answers == old(answers) + [StatusOf(denial)]
      ensures metrics == CountedAs(old(metrics), Some(denial), false, false, false)
    {
      if IsAuthFailure(denial) { metrics := metrics.(authFailures := metrics.authFailures + 1); }
      Answer(StatusOf(denial));
    }

    /** An upstream failure that is answered 502. */
    method FailUpstream()
      modifies this`answers, this`metrics
      ensures answers == old(answers) + [502]
      ensures metrics == old(metrics).(upstreamFailures := old(metrics).upstreamFailures + 1)
    {
      metrics := metrics.(upstreamFailures := metrics.upstreamFailures + 1);
      Answer(502);
    }

    /** `handleHTTP`: one answer, one record exactly when the response was relayed and the context is live
        when it is sent, and the slot given back on every path as far as the context allows. */
    method HandleHttp(id: nat, r: HttpRequest)
      modifies this
      ensures commands == old(commands) + LimiterCommands(id, r.denied, r.ends)
      ensures answers == old(answers) + [HttpStatus(r)]
      ensures RecordedHttp(old(records), records, r)
      ensures |records| - |old(records)|
           == if r.denied.None? && r.picked.Some? && r.dialed && r.sent && r.response.Some? && r.ends != BeforeRecord
              then 1 else 0
      ensures tunnels == old(tunnels)
      ensures metrics == CountedAs(old(metrics), r.denied, false, r.picked.None?, r.picked.Some? && !HttpRelayed(r))
    {
      Enter(id, r.denied, r.ends);
      if r.denied.Some? {
        Deny(r.denied.value);
        return;
      }
      metrics := metrics.(requests := metrics.requests + 1);
      ForwardHttp(r);
      Leave(id, r.ends);
    }

    /** What runs between the deferred release and the return. */
    method ForwardHttp(r: HttpRequest)
      requires r.denied.None?
      modifies this`answers, this`records, this`metrics
      ensures answers == old(answers) + [HttpStatus(r)]
      ensures RecordedHttp(old(records), records, r)
      ensures metrics == old(metrics).(
                selectionFailures := old(metrics).selectionFailures + if r.picked.None? then 1 else 0,
                upstreamFailures := old(metrics).upstreamFailures + if r.picked.Some? && !HttpRelayed(r) then 1 else 0)
    {
      if r.picked.None? {
        metrics := metrics.(selectionFailures := metrics.selectionFailures + 1);
        Answer(502);
        return;
      }
      var node := r.picked.value;
      if !r.dialed { FailUpstream(); return; }
      if !r.sent { FailUpstream(); return; }
      if r.response.None? { FailUpstream(); return; }
      var response := r.response.value;
      Answer(response.status);
      RecordUnder(r.ends != BeforeRecord,
                  Ledger.TrafficRecord(r.uid, node.node, RegionOf(node), SafeLength(r.contentLength),
                                       response.written, 1, r.hour));
    }

    /** `RecordTraffic` under a context: with one that has ended nothing is sent, and nobody looks. */
    method RecordUnder(live: bool, record: Ledger.TrafficRecord)
      modifies this`records
      ensures records == if live then old(records) + [record] else old(records)
    {
      if live { records := records + [record]; }
    }

    /** `handleConnect`: the same, with the gauge of tunnels back where it was on every path. */
    method HandleConnect(id: nat, r: ConnectRequest)
      modifies this
      ensures commands == old(commands) + LimiterCommands(id, r.denied, r.ends)
      ensures answers == old(answers) + [ConnectStatus(r)]
      ensures RecordedConnect(old(records), records, r)
      ensures |records| - |old(records)|
           == if r.denied.None? && r.picked.Some? && r.hijacked && r.dialed
                 && (r.picked.value.targetDial || r.established)
              then 1 else 0
      ensures tunnels == old(tunnels)
      ensures metrics == CountedAs(old(metrics), r.denied, true, r.picked.None?,
                                   r.picked.Some? && r.hijacked && !Tunnelled(r))
    {
      Enter(id, r.denied, r.ends);
      if r.denied.Some? {
        Deny(r.denied.value);
        return;
      }
      metrics := metrics.(connects := metrics.connects + 1);
      ForwardConnect(r);
      Leave(id, r.ends);
    }

    method ForwardConnect(r: ConnectRequest)
      requires r.denied.None?
      modifies this`answers, this`records, this`metrics, this`tunnels
      ensures answers == old(answers) + [ConnectStatus(r)]
      ensures RecordedConnect(old(records), records, r)
      ensures tunnels == old(tunnels)
      ensures metrics == old(metrics).(
                selectionFailures := old(metrics).selectionFailures + if r.picked.None? then 1 else 0,
                upstreamFailures := old(metrics).upstreamFailures
                                    + if r.picked.Some? && r.hijacked && !Tunnelled(r) then 1 else 0)
    {
      if r.picked.None? {
        metrics := metrics.(selectionFailures := metrics.selectionFailures + 1);
        Answer(502);
        return;
      }
      if !r.hijacked {
        Answer(500);
        return;
      }
      var node := r.picked.value;
      if node.targetDial {
        if !r.dialed { FailUpstream(); return; }
        Relay(r, node);
        return;
      }
      if !r.dialed { FailUpstream(); return; }
      if !r.established { FailUpstream(); return; }
      Relay(r, node);
    }

    /** The tunnel: counted up, answered, copied both ways, recorded, and counted down when it ends. */
    method Relay(r: ConnectRequest, node: Picked)
      requires Tunnelled(r) && node == r.picked.value
      modifies this`answers, this`records, this`tunnels
      ensures answers == old(answers) + [200] && RecordedConnect(old(records), records, r)
      ensures tunnels == old(tunnels)
    {
      tunnels := tunnels + 1;
      Answer(200);
      RecordUnder(true, Ledger.TrafficRecord(r.uid, node.node, RegionOf(node), r.upload, r.download, 1, r.hour));
      tunnels := tunnels - 1;
    }
  }

  // ---------------------------------------------------------------- answers, counts and commands by their causes

  /** The answers to denied requests: bad credentials, an account that may not, too many at once. */
  lemma DenialAnswers(d: Denial)
    ensures StatusOf(d) == 407 <==> d in [MissingAuth, UnknownUser, WrongPassword]
    ensures StatusOf(d) == 403 <==> d in [UserDisabled, UserExpired, QuotaExceeded]
    ensures StatusOf(d) == 429 <==> d == ConcurrencyExceeded
    ensures IsAuthFailure(d) <==> d in [MissingAuth, UnknownUser, WrongPassword]
  {
  }

  /** The answer to a plain request that was let in is the one of upstream if every stage worked. */
  lemma HttpAnswers(r: HttpRequest)
    requires r.denied.None?
    ensures var through := r.picked.Some? && r.dialed && r.sent && r.response.Some?;
         && HttpStatus(r) == (if through then r.response.value.status else 502)
         && (HttpRecorded(r) <==> through && r.ends != BeforeRecord)
  {
  }

  /** A tunnel is answered 200 once it is up; an upstream proxy has to establish it first. */
  lemma ConnectAnswers(r: ConnectRequest)
    requires r.denied.None?
    ensures var up := r.picked.Some? && r.hijacked && r.dialed && (r.picked.value.targetDial || r.established);
         && (Tunnelled(r) <==> up) && (ConnectStatus(r) == 200 <==> up)
         && (ConnectStatus(r) == 500 <==> r.picked.Some? && !r.hijacked)
         && ConnectStatus(r) in [200, 500, 502]
  {
  }

  lemma DeniedStatus(h: HttpRequest, c: ConnectRequest)
    ensures h.denied.Some? ==> HttpStatus(h) == StatusOf(h.denied.value)
    ensures c.denied.Some? ==> ConnectStatus(c) == StatusOf(c.denied.value)
  {
  }

  /** What a request tells the limiter: nothing if its credentials, account or quota were refused, else that it
      came, and that it went as far as its context allows. */
  lemma CommandsAre(id: nat, denied: Option<Denial>, ends: ContextEnd)
    ensures var commands := LimiterCommands(id, denied, ends);
         match denied
         case None =>
           && (ends == Never ==> commands == [L.Arrive(id), L.Read(id), L.Finish(id)])
           && (ends == DuringRelease ==> commands == [L.Arrive(id), L.Read(id), L.LoseRelease(id)])
           && (ends in [BeforeRecord, BeforeRelease] ==> commands == [L.Arrive(id), L.LoseRelease(id)])
         case Some(d) =>
           && (d != ConcurrencyExceeded ==> commands == [])
           && (d == ConcurrencyExceeded && ends == Never ==> commands == [L.Arrive(id), L.Undo(id)])
           && (d == ConcurrencyExceeded && ends != Never ==> commands == [L.Arrive(id), L.LoseUndo(id)])
  {
  }

  /** What a request is counted as, number by number. */
  lemma CountsAre(m: Metrics, denied: Option<Denial>, connect: bool, unselected: bool, failed: bool)
    ensures var n := CountedAs(m, denied, connect, unselected, failed);
         && (n.authFailures == m.authFailures + 1 <==> denied.Some? && IsAuthFailure(denied.value))
         && (n.requests == m.requests + 1 <==> denied.None? && !connect)
         && (n.connects == m.connects + 1 <==> denied.None? && connect)
         && (n.selectionFailures == m.selectionFailures + 1 <==> denied.None? && unselected)
         && (n.upstreamFailures == m.upstreamFailures + 1 <==> denied.None? && failed)
         && m.authFailures <= n.authFailures <= m.authFailures + 1 && m.requests <= n.requests <= m.requests + 1
         && m.connects <= n.connects <= m.connects + 1
         && m.selectionFailures <= n.selectionFailures <= m.selectionFailures + 1
         && m.upstreamFailures <= n.upstreamFailures <= m.upstreamFailures + 1
  {
  }

  // ---------------------------------------------------------------- traffic that is lost

  function RecordBytes(rec: Ledger.TrafficRecord): nat {
    rec.upload + rec.download
  }

  function HttpBytes(r: HttpRequest): nat
    requires HttpRelayed(r)
  {
    (if r.contentLength >= 0 then r.contentLength else 0) + r.response.value.written
  }

  /** These are the records the handler left, request after request. */
  predicate Served(rs: seq<HttpRequest>, records: seq<Ledger.TrafficRecord>) {
    if rs == [] then records == []
    else if HttpRecorded(Last(rs)) then
      records != [] && RecordedHttp(Front(records), records, Last(rs)) && Served(Front(rs), Front(records))
    else Served(Front(rs), records)
  }

  function RelayedFor(rs: seq<HttpRequest>, uid: string): nat {
    if rs == [] then 0
    else RelayedFor(Front(rs), uid) + if HttpRelayed(Last(rs)) && Last(rs).uid == uid then HttpBytes(Last(rs)) else 0
  }

  function RecordedIn(records: seq<Ledger.TrafficRecord>, uid: string): nat {
    if records == [] then 0
    else RecordedIn(Front(records), uid) + if Last(records).uid == uid then RecordBytes(Last(records)) else 0
  }

  /** A request of this user whose bytes were relayed but not recorded. */
  predicate HungUp(r: HttpRequest, uid: string) {
    HttpRelayed(r) && r.ends == BeforeRecord && r.uid == uid
  }

  function LostFor(rs: seq<HttpRequest>, uid: string): nat {
    if rs == [] then 0 else LostFor(Front(rs), uid) + if HungUp(Last(rs), uid) then HttpBytes(Last(rs)) else 0
  }

  /** Relayed bytes are the recorded ones plus exactly those of requests whose context ended before the
      record was sent. */
  lemma {:induction false} RelayedAccounted(rs: seq<HttpRequest>, records: seq<Ledger.TrafficRecord>, uid: string)
    requires Served(rs, records)
    ensures RelayedFor(rs, uid) == RecordedIn(records, uid) + LostFor(rs, uid)
  {
    if rs != [] {
      RelayedAccounted(Front(rs), if HttpRecorded(Last(rs)) then Front(records) else records, uid);
    }
  }

  lemma {:induction false} LostExactly(rs: seq<HttpRequest>, uid: string)
    ensures LostFor(rs, uid) == 0 <==> forall r :: r in rs && HungUp(r, uid) ==> HttpBytes(r) == 0
  {
    if rs != [] {
      LostExactly(Front(rs), uid);
      assert rs == Front(rs) + [Last(rs)];
    }
  }

  /** A client that hangs up when it has read everything. */
  function HangingUp(uid: Uid, p: Picked, written: nat): HttpRequest {
    HttpRequest(uid, None, Some(p), true, true, Some(Response(200, written)), 0, 0, BeforeRecord)
  }

  /** All its bytes are relayed and none recorded, however many, and its slot is never given back. */
  lemma HangUpLosesTraffic(uid: Uid, p: Picked, written: nat, records: seq<Ledger.TrafficRecord>, id: nat)
    ensures var r := HangingUp(uid, p, written);
         && HttpRelayed(r) && HttpBytes(r) == written
         && (Served([r], records) ==> records == [] && LostFor([r], uid) == written)
         && LimiterCommands(id, r.denied, r.ends) == [L.Arrive(id), L.LoseRelease(id)]
  {
    var r := HangingUp(uid, p, written);
    assert Front([r]) == [] && Last([r]) == r;
    assert Served([], records) <==> records == [];
    assert LostFor([], uid) == 0;
  }

  // ---------------------------------------------------------------- all requests together

  /** How each request of a user ended, by its id. */
  type Endings = map<nat, (Option<Denial>, ContextEnd)>

  /** The limiter commands of any number of requests, interleaved in any way. */
  ghost predicate Interleaves(steps: seq<L.Step>, endings: Endings) {
    forall id: nat :: L.About(steps, id)
      == if id in endings then LimiterCommands(id, endings[id].0, endings[id].1) else []
  }

  predicate Loses(step: L.Step) {
    step.LoseUndo? || step.LoseRelease?
  }

  lemma {:induction false} NothingLeaked(max: int, steps: seq<L.Step>)
    requires forall i :: 0 <= i < |steps| ==> !Loses(steps[i])
    ensures L.Run(max, L.START, steps).leaked == 0
  {
    if steps != [] { NothingLeaked(max, Front(steps)); }
  }

  lemma {:induction false} AboutHolds(steps: seq<L.Step>, i: nat, id: nat)
    requires i < |steps| && L.Names(steps[i], id)
    ensures steps[i] in L.About(steps, id)
  {
    if i < |steps| - 1 {
      AboutHolds(Front(steps), i, id);
    }
  }

  /** However the commands of a user's requests interleave, releases reading and then deleting included,
      once all handlers have returned nobody is inside and the counter is the leaks less what was wiped
      out: zero exactly when these are equal. Nothing leaks when no context ended early. */
  lemma ServerAtRest(max: int, steps: seq<L.Step>, endings: Endings)
    requires L.Orderly(max, steps) && Interleaves(steps, endings)
    ensures var s := L.Run(max, L.START, steps);
         && s.admitted == {} && s.releasing == map[] && s.rejecting == {} && s.counter == s.leaked - s.erased
         && (s.counter == 0 <==> s.leaked == s.erased)
         && ((forall id :: id in endings ==> endings[id].1 == Never) ==> s.leaked == 0)
  {
    forall id: nat
      ensures L.Through(L.About(steps, id))
    {
      LastCommand(steps, endings, id);
    }
    L.AllThrough(max, steps);
    if forall id :: id in endings ==> endings[id].1 == Never {
      forall i | 0 <= i < |steps|
        ensures !Loses(steps[i])
      {
        NotLost(steps, endings, i);
      }
      NothingLeaked(max, steps);
    }
  }

  /** With no context ended early, and every DEL finding the counter at one, the counter is zero. */
  lemma ServerAtZero(max: int, steps: seq<L.Step>, endings: Endings)
    requires L.Orderly(max, steps) && Interleaves(steps, endings) && L.HarmlessRun(max, steps)
    requires forall id :: id in endings ==> endings[id].1 == Never
    ensures L.Run(max, L.START, steps).counter == 0
  {
    ServerAtRest(max, steps, endings);
    L.LimitHoldsIfHarmless(max, steps);
  }

  lemma LastCommand(steps: seq<L.Step>, endings: Endings, id: nat)
    requires Interleaves(steps, endings)
    ensures L.Through(L.About(steps, id))
  {
    var about := L.About(steps, id);
    assert about == if id in endings then LimiterCommands(id, endings[id].0, endings[id].1) else [];
    if id in endings { CommandsEnd(id, endings[id].0, endings[id].1); }
  }

  lemma CommandsEnd(id: nat, denied: Option<Denial>, ends: ContextEnd)
    ensures L.Through(LimiterCommands(id, denied, ends))
  {
  }

  lemma NotLost(steps: seq<L.Step>, endings: Endings, i: nat)
    requires Interleaves(steps, endings) && i < |steps| && (forall id :: id in endings ==> endings[id].1 == Never)
    ensures !Loses(steps[i])
  {
    if !steps[i].Cleanup? {
      var id := steps[i].r;
      assert forall c :: c in L.About(steps, id) ==> !Loses(c) by {
        assert L.About(steps, id) == if id in endings then LimiterCommands(id, endings[id].0, endings[id].1) else [];
      }
      AboutHolds(steps, i, id);
    }
  }

  /** Two requests under a limit of one, no context ended, all handlers returned: the second is turned
      away between the read and the deletion of the first, and the counter rests below zero. */
  lemma RestsBelowZero()
    ensures var steps, endings := L.Race(1), map[0 := (None, Never), 1 := (Some(ConcurrencyExceeded), Never)];
         && L.Orderly(1, steps) && Interleaves(steps, endings)
         && L.Run(1, L.START, steps).counter == -1
  {
    L.RaceLeaves(1);
    L.RaceOrderly();
    forall id: nat
      ensures L.About(L.Race(1), id)
           == if id == 0 then [L.Arrive(0), L.Read(0), L.Finish(0)]
              else if id == 1 then [L.Arrive(1), L.Undo(1)] else []
    {
      L.RaceAbout(id);
    }
  }
}
