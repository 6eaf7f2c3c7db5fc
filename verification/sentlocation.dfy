/**
 * The location-report endpoint `handle` of `src/pages/api/sentlocation.ts`:
 * a device reports a distance from the safezone centre, the endpoint
 * classifies it, overwrites (or creates) the one latest location row of the
 * (user, cared-for person) pair, and pushes a LINE notification unless the
 * status equals the one stored before the write.
 *
 * The database is the value `Db` (one latest row per key); the Prisma calls
 * and the LINE push that can throw are the `Fault` parameter, and the clock
 * (`new Date()`) is the `now` parameter.
 */
module SentLocation {
  import opened Js
  import opened ZoneStatus

  /** A (users_id, takecare_id) pair: the key of safezones, location rows and cared-for persons. */
  datatype Key = Key(usersId: int, takecareId: int)

  /** The two radii of a safezone row (`safez_radiuslv1`, `safez_radiuslv2`). */
  datatype Safezone = Safezone(radius1: real, radius2: real)

  /** A row of the `location` table. */
  datatype Location = Location(
    locationId: nat,
    usersId: int,
    takecareId: int,
    timestamp: int,
    latitude: string,
    longitude: string,
    status: int,
    distance: Num,
    battery: Num,
    notiTime: int,
    notiStatus: int)

  /** A `users` row; only its LINE id (which may be null) is read. */
  datatype User = User(lineId: Option<string>)

  /** A `takecareperson` row of a key. */
  datatype Carer = Carer(fname: string, sname: string, takecareStatus: int)

  /** The tables the endpoint reads and writes, and the id the next created row gets. */
  datatype Db = Db(
    safezones: map<Key, Safezone>,
    locations: map<Key, Location>,
    users: map<int, User>,
    carers: map<Key, Carer>,
    nextId: nat)

  /**
   * The request: its method and the six body fields, `None` standing for
   * `undefined`. The identifiers and numbers are the values `Number(...)`
   * gives, the coordinates the strings `String(...)` gives.
   */
  datatype Request = Request(
    verb: string,
    uId: Option<int>,
    takecareId: Option<int>,
    distance: Option<Num>,
    latitude: Option<string>,
    longitude: Option<string>,
    battery: Option<Num>)

  /** The first awaited call inside the `try` block that throws, if any. */
  datatype Fault =
    | NoFault
    | SafezoneLookupFails
    | LatestLookupFails
    | WriteFails
    | ContactLookupFails   // `prisma.users.findFirst` or `prisma.takecareperson.findFirst`
    | PushFails            // `pushFlexMessage`

  /** Whether the status read before the write lets the call return early. */
  datatype NotifyDecision = Skip | Notify(status: int)

  /** The escalation data `userLineId=...&takecarepersonId=...&type=safezone` attached to a Breach message. */
  datatype Postback = Postback(userLineId: string, takecarePersonId: int)

  /** What `pushFlexMessage` is handed: the recipient and the template arguments. */
  datatype FlexPush = FlexPush(
    replyToken: string,
    status: int,
    name: string,
    latitude: string,
    longitude: string,
    postback: Option<Postback>)

  /**
   * The HTTP status, the row returned in the body on success, the decision
   * when the call got past the write, and the message handed to the push.
   */
  datatype Response = Response(code: int, saved: Option<Location>, decision: Option<NotifyDecision>, push: Option<FlexPush>)

  datatype Step = Step(db: Db, resp: Response)

  const OK := 200
  const BadRequest := 400
  const NotFound := 404
  const MethodNotAllowed := 405
  const ServerError := 500

  predicate Allowed(verb: string) {
    verb == "PUT" || verb == "POST"
  }

  /** Every field is present: the test is `=== undefined`, so 0 and the empty string pass. */
  predicate Complete(req: Request) {
    && req.uId.Some? && req.takecareId.Some? && req.distance.Some?
    && req.latitude.Some? && req.longitude.Some? && req.battery.Some?
  }

  function KeyOf(req: Request): Key
    requires Complete(req)
  {
    Key(req.uId.value, req.takecareId.value)
  }

  /** The call reaches the store write: allowed, complete, a safezone found, and no lookup throwing before. */
  predicate Writes(db: Db, req: Request, fault: Fault) {
    && Allowed(req.verb) && Complete(req)
    && fault != SafezoneLookupFails && KeyOf(req) in db.safezones
    && fault != LatestLookupFails && fault != WriteFails
  }

  /** The status of the latest row of the key, read before the write; `None` for a first report. */
  function Previous(db: Db, key: Key): Option<int> {
    if key in db.locations then Some(db.locations[key].status) else None
  }

  function StatusOf(db: Db, req: Request): int
    requires Complete(req) && KeyOf(req) in db.safezones
  {
    var zone := db.safezones[KeyOf(req)];
    Classify(req.distance.value, zone.radius1, zone.radius2)
  }

  /**
   * The early return of the endpoint: it skips the notification only when a
   * previous row exists and holds the same status. A first report (no previous
   * row) is not a skip.
   */
  function Evaluate(previous: Option<int>, status: int): (d: NotifyDecision)
    ensures d == Skip <==> previous == Some(status)
    ensures d != Skip ==> d == Notify(status)
  {
    if previous.Some? && status == previous.value then Skip else Notify(status)
  }

  /** The row written for a request (`dataPayload` with the row id). */
  function Payload(req: Request, status: int, now: int, id: nat): Location
    requires Complete(req)
  {
    Location(id, req.uId.value, req.takecareId.value, now, req.latitude.value, req.longitude.value,
             status, req.distance.value, req.battery.value, now, 1)
  }

  /** The active (`takecare_status: 1`) cared-for person of the key, if any. */
  predicate HasActiveCarer(db: Db, key: Key) {
    key in db.carers && db.carers[key].takecareStatus == 1
  }

  /** `user.users_line_id || ''`. */
  function LineIdOf(u: User): string {
    match u.lineId
    case Some(id) => id
    case None => ""
  }

  /**
   * The message pushed on the notification path: only when the user and an
   * active cared-for person are found and the user has a non-empty LINE id;
   * the postback is attached only to a Breach.
   */
  function Recipient(db: Db, key: Key, status: int, latitude: string, longitude: string): (m: Option<FlexPush>)
    ensures m.Some? <==> key.usersId in db.users && HasActiveCarer(db, key) && LineIdOf(db.users[key.usersId]) != ""
    ensures m.Some? ==> m.value.replyToken == LineIdOf(db.users[key.usersId]) && m.value.status == status
    ensures m.Some? ==> (m.value.postback.Some? <==> status == Breach)
    ensures m.Some? && m.value.postback.Some? ==>
              m.value.postback.value == Postback(m.value.replyToken, key.takecareId)
  {
    if key.usersId in db.users && HasActiveCarer(db, key) then
      var token := LineIdOf(db.users[key.usersId]);
      if token != "" then
        var carer := db.carers[key];
        var postback := if status == Breach then Some(Postback(token, key.takecareId)) else None;
        Some(FlexPush(token, status, carer.fname + " " + carer.sname, latitude, longitude, postback))
      else None
    else None
  }

  /** Every row sits under its own key, and the row ids are distinct and below `nextId`. */
  ghost predicate ValidDb(db: Db) {
    && (forall k :: k in db.locations ==>
          db.locations[k].usersId == k.usersId && db.locations[k].takecareId == k.takecareId
          && db.locations[k].locationId < db.nextId)
    && (forall k, k' :: k in db.locations && k' in db.locations && k != k' ==>
          db.locations[k].locationId != db.locations[k'].locationId)
  }

  /** `handle` as a function of the database before the call. */
  function Handle(db: Db, req: Request, fault: Fault, now: int): (out: Step)
    ensures out.resp.code in {OK, BadRequest, NotFound, MethodNotAllowed, ServerError}
    ensures out.resp.code == ServerError ==> fault != NoFault
  {
    if !Allowed(req.verb) then Step(db, Response(MethodNotAllowed, None, None, None))
    else if !Complete(req) then Step(db, Response(BadRequest, None, None, None))
    else
      var key := KeyOf(req);
      if fault == SafezoneLookupFails then Step(db, Response(ServerError, None, None, None))
      else if key !in db.safezones then Step(db, Response(NotFound, None, None, None))
      else Recorded(db, req, fault, now)
  }

  /**
   * The rest of `handle` once the safezone is found: classify, read the
   * latest row, write it, answer.
   */
  function Recorded(db: Db, req: Request, fault: Fault, now: int): (out: Step)
    requires Complete(req) && KeyOf(req) in db.safezones
  {
    var key := KeyOf(req);
    var status := StatusOf(db, req);
    if fault == LatestLookupFails then Step(db, Response(ServerError, None, None, None))
    else
      var previous := Previous(db, key);
      if fault == WriteFails then Step(db, Response(ServerError, None, None, None))
      else
        var id := if key in db.locations then db.locations[key].locationId else db.nextId;
        var saved := Payload(req, status, now, id);
        var db' := db.(locations := db.locations[key := saved],
                       nextId := if key in db.locations then db.nextId else db.nextId + 1);
        Step(db', Answer(db, req, fault, status, previous, saved))
  }

  /**
   * What `handle` answers once the row is written: 200 with the row when the
   * status is unchanged; otherwise the contact lookups and the push, any of
   * which can still fail with a 500.
   */
  function Answer(db: Db, req: Request, fault: Fault, status: int, previous: Option<int>, saved: Location): Response
    requires Complete(req)
  {
    var decision := Evaluate(previous, status);
    if decision == Skip then Response(OK, Some(saved), Some(Skip), None)
    else if fault == ContactLookupFails then Response(ServerError, None, Some(decision), None)
    else
      var push := Recipient(db, KeyOf(req), status, req.latitude.value, req.longitude.value);
      if push.Some? && fault == PushFails then Response(ServerError, None, Some(decision), push)
      else Response(OK, Some(saved), Some(decision), push)
  }

  /** What one call of `handle` does, for every database, request and fault. */
  lemma HandleContract(db: Db, req: Request, fault: Fault, now: int)
    // A method other than PUT and POST: 405 and nothing touched.
    ensures var out := Handle(db, req, fault, now);
            !Allowed(req.verb) ==> out == Step(db, Response(MethodNotAllowed, None, None, None))
    // A missing field: 400, before any lookup.
    ensures var out := Handle(db, req, fault, now);
            Allowed(req.verb) && !Complete(req) ==> out == Step(db, Response(BadRequest, None, None, None))
    // No safezone for the key: 404, the store unchanged.
    ensures var out := Handle(db, req, fault, now);
            Allowed(req.verb) && Complete(req) && fault != SafezoneLookupFails && KeyOf(req) !in db.safezones ==>
              out == Step(db, Response(NotFound, None, None, None))
    // No write means no change, no decision and no push.
    ensures var out := Handle(db, req, fault, now);
            !Writes(db, req, fault) ==> out.db == db && out.resp.decision == None && out.resp.push == None
    ensures var out := Handle(db, req, fault, now);
            out.resp.saved.Some? <==> out.resp.code == OK && Writes(db, req, fault)
    // Exactly one row written: the key's row, holding the computed status.
    ensures var out := Handle(db, req, fault, now);
            Writes(db, req, fault) ==>
              var key := KeyOf(req);
              && out.db.locations.Keys == db.locations.Keys + {key}
              && (forall k :: k in db.locations && k != key ==> out.db.locations[k] == db.locations[k])
              && out.db.locations[key].status == StatusOf(db, req)
              && out.db.locations[key].notiStatus == 1
              && out.db.locations[key].usersId == key.usersId && out.db.locations[key].takecareId == key.takecareId
              && out.db.locations[key].latitude == req.latitude.value
              && out.db.locations[key].longitude == req.longitude.value
              && out.db.locations[key].distance == req.distance.value
              && out.db.locations[key].battery == req.battery.value
              && out.db.locations[key].timestamp == now
              && out.db.safezones == db.safezones && out.db.users == db.users && out.db.carers == db.carers
              && (out.resp.saved.Some? ==> out.resp.saved.value == out.db.locations[key])
    // An existing row is overwritten in place; otherwise a row with a fresh id is created.
    ensures var out := Handle(db, req, fault, now);
            Writes(db, req, fault) && KeyOf(req) in db.locations ==>
              out.db.locations[KeyOf(req)].locationId == db.locations[KeyOf(req)].locationId && out.db.nextId == db.nextId
    ensures var out := Handle(db, req, fault, now);
            Writes(db, req, fault) && KeyOf(req) !in db.locations ==>
              out.db.locations[KeyOf(req)].locationId == db.nextId && out.db.nextId == db.nextId + 1
    // The decision compares with the status read before the write.
    ensures var out := Handle(db, req, fault, now);
            Writes(db, req, fault) ==>
              out.resp.decision == Some(Evaluate(Previous(db, KeyOf(req)), StatusOf(db, req)))
    ensures var out := Handle(db, req, fault, now);
            out.resp.decision == Some(Skip) ==> out.resp.code == OK && out.resp.push == None
    // A push goes out only on the notification path, to a found user with an active cared-for person.
    ensures var out := Handle(db, req, fault, now);
            out.resp.push.Some? ==>
              && Writes(db, req, fault) && out.resp.decision == Some(Notify(StatusOf(db, req)))
              && out.resp.push == Recipient(db, KeyOf(req), StatusOf(db, req), req.latitude.value, req.longitude.value)
    // On the notification path the push does go out, unless the contact lookup fails.
    ensures var out := Handle(db, req, fault, now);
            Writes(db, req, fault) && fault != ContactLookupFails
            && Evaluate(Previous(db, KeyOf(req)), StatusOf(db, req)).Notify? ==>
              out.resp.push == Recipient(db, KeyOf(req), StatusOf(db, req), req.latitude.value, req.longitude.value)
    // A written row is answered with 200 unless the contact lookup or the push fails.
    ensures var out := Handle(db, req, fault, now);
            Writes(db, req, fault) && fault != ContactLookupFails && fault != PushFails ==> out.resp.code == OK
    // A failing push or contact lookup is a 500 although the row is already written.
    ensures var out := Handle(db, req, fault, now);
            Writes(db, req, fault) && out.resp.code == ServerError ==>
              (fault == ContactLookupFails || fault == PushFails) && out.resp.decision.value.Notify?
    ensures var out := Handle(db, req, fault, now);
            Writes(db, req, fault) && Evaluate(Previous(db, KeyOf(req)), StatusOf(db, req)).Notify? ==>
              && (fault == ContactLookupFails ==> out.resp.code == ServerError && out.resp.push == None)
              && (fault == PushFails && out.resp.push.Some? ==> out.resp.code == ServerError)
  {
  }

  /** The row ids stay distinct and every row stays under its own key. */
  lemma HandlePreservesValid(db: Db, req: Request, fault: Fault, now: int)
    requires ValidDb(db)
    ensures ValidDb(Handle(db, req, fault, now).db)
  {
    HandleContract(db, req, fault, now);
  }

  /** A first report for a key is not a skip: with no row before it, it goes on to the notification path. */
  lemma FirstReportNotifies(db: Db, req: Request, fault: Fault, now: int)
    requires Writes(db, req, fault) && KeyOf(req) !in db.locations
    ensures Handle(db, req, fault, now).resp.decision == Some(Notify(StatusOf(db, req)))
  {
    HandleContract(db, req, fault, now);
  }

  /**
   * A push that throws turns the call into a 500, yet the row has already
   * been written with the new status.
   */
  lemma PushFailureAfterWrite(db: Db, req: Request, now: int)
    requires Writes(db, req, PushFails)
    requires Previous(db, KeyOf(req)) != Some(StatusOf(db, req))
    requires Recipient(db, KeyOf(req), StatusOf(db, req), req.latitude.value, req.longitude.value).Some?
    ensures var out := Handle(db, req, PushFails, now);
            && out.resp.code == ServerError && out.resp.saved.None?
            && KeyOf(req) in out.db.locations
            && out.db.locations[KeyOf(req)].status == StatusOf(db, req)
            && out.db.locations[KeyOf(req)].timestamp == now
  {
    HandleContract(db, req, PushFails, now);
  }

  /** One call of the sequence: the request, the fault it meets and the clock. */
  datatype Call = Call(req: Request, fault: Fault, now: int)

  /** The responses of a sequence of calls handled one after another, and the final database. */
  function Replay(db: Db, calls: seq<Call>): (r: (Db, seq<Response>))
    ensures |r.1| == |calls|
    decreases |calls|
  {
    if calls == [] then (db, [])
    else
      var step := Handle(db, calls[0].req, calls[0].fault, calls[0].now);
      var rest := Replay(step.db, calls[1..]);
      (rest.0, [step.resp] + rest.1)
  }

  /** The call writes the key's row with the given status. */
  predicate WritesStatus(db: Db, c: Call, key: Key, status: int) {
    Writes(db, c.req, c.fault) && KeyOf(c.req) == key && StatusOf(db, c.req) == status
  }

  /**
   * Steady state: once the key's row holds status `s`, any number of further
   * reports classified as `s` each return 200 without a push, and the row
   * keeps `s`.
   */
  lemma {:induction false} RepeatedStatusNeverNotifies(db: Db, calls: seq<Call>, key: Key, s: int)
    requires key in db.locations && db.locations[key].status == s
    requires forall i :: 0 <= i < |calls| ==> WritesStatus(db, calls[i], key, s)
    ensures var r := Replay(db, calls);
              && key in r.0.locations && r.0.locations[key].status == s
              && r.0.safezones == db.safezones
              && forall i :: 0 <= i < |calls| ==>
                   r.1[i].code == OK && r.1[i].decision == Some(Skip) && r.1[i].push == None
    decreases |calls|
  {
    if calls != [] {
      var step := Handle(db, calls[0].req, calls[0].fault, calls[0].now);
      HandleContract(db, calls[0].req, calls[0].fault, calls[0].now);
      assert step.db.safezones == db.safezones;
      forall i | 0 <= i < |calls[1..]|
        ensures WritesStatus(step.db, calls[1..][i], key, s)
      {
        assert WritesStatus(db, calls[i + 1], key, s);
      }
      RepeatedStatusNeverNotifies(step.db, calls[1..], key, s);
    }
  }

  /**
   * A transition: after a report stored as `a`, a report classified as
   * `b != a` goes on to the notification path, and a repetition of `b` is
   * skipped.
   */
  lemma TransitionNotifiesOnce(db: Db, c1: Call, c2: Call, c3: Call, key: Key, a: int, b: int)
    requires a != b
    requires WritesStatus(db, c1, key, a)
    requires var db1 := Handle(db, c1.req, c1.fault, c1.now).db;
             WritesStatus(db1, c2, key, b) && WritesStatus(Handle(db1, c2.req, c2.fault, c2.now).db, c3, key, b)
    ensures var db1 := Handle(db, c1.req, c1.fault, c1.now).db;
            var step2 := Handle(db1, c2.req, c2.fault, c2.now);
            var step3 := Handle(step2.db, c3.req, c3.fault, c3.now);
            && step2.resp.decision == Some(Notify(b))
            && step3.resp.decision == Some(Skip) && step3.resp.push == None
  {
    var db1 := Handle(db, c1.req, c1.fault, c1.now).db;
    HandleContract(db, c1.req, c1.fault, c1.now);
    HandleContract(db1, c2.req, c2.fault, c2.now);
    HandleContract(Handle(db1, c2.req, c2.fault, c2.now).db, c3.req, c3.fault, c3.now);
  }

  /**
   * The database the endpoint works on, owned by one object: `Report` handles
   * one request, reading the latest row before overwriting it.
   */
  class LocationService {
    var safezones: map<Key, Safezone>
    var locations: map<Key, Location>
    var users: map<int, User>
    var carers: map<Key, Carer>
    var nextId: nat

    function State(): Db
      reads this
    {
      Db(safezones, locations, users, carers, nextId)
    }

    ghost predicate Valid()
      reads this
    {
      ValidDb(State())
    }

    constructor (safezones: map<Key, Safezone>, users: map<int, User>, carers: map<Key, Carer>)
      ensures Valid()
      ensures State() == Db(safezones, map[], users, carers, 1)
    {
      this.safezones := safezones;
      this.locations := map[];
      this.users := users;
      this.carers := carers;
      this.nextId := 1;
    }

    /** One call of `handle`; the row ids stay distinct. */
    method Report(req: Request, fault: Fault, now: int) returns (resp: Response)
      requires Valid()
      modifies this`locations, this`nextId
      ensures Valid()
      ensures Step(State(), resp) == Handle(old(State()), req, fault, now)
    {
      HandlePreservesValid(State(), req, fault, now);
      resp := Run(req, fault, now);
    }

    /** The body of `handle`, statement by statement, with its early returns. */
    method Run(req: Request, fault: Fault, now: int) returns (resp: Response)
      modifies this`locations, this`nextId
      ensures Step(State(), resp) == Handle(old(State()), req, fault, now)
    {
      if req.verb != "PUT" && req.verb != "POST" {
        return Response(MethodNotAllowed, None, None, None);
      }
      if req.uId == None || req.takecareId == None || req.distance == None
         || req.latitude == None || req.longitude == None || req.battery == None {
        return Response(BadRequest, None, None, None);
      }
      var key := Key(req.uId.value, req.takecareId.value);
      if fault == SafezoneLookupFails {
        return Response(ServerError, None, None, None);
      }
      if key !in safezones {
        return Response(NotFound, None, None, None);
      }
      resp := Record(req, fault, now);
    }

    /** From the classification on: the latest-row read, the write and the answer. */
    method Record(req: Request, fault: Fault, now: int) returns (resp: Response)
      requires Complete(req) && KeyOf(req) in safezones
      modifies this`locations, this`nextId
      ensures Step(State(), resp) == Recorded(old(State()), req, fault, now)
    {
      var key := KeyOf(req);
      var zone := safezones[key];
      var status := Classify(req.distance.value, zone.radius1, zone.radius2);
      if fault == LatestLookupFails {
        return Response(ServerError, None, None, None);
      }
      var latest: Option<Location> := if key in locations then Some(locations[key]) else None;
      var previous: Option<int> := if latest.Some? then Some(latest.value.status) else None;
      if fault == WriteFails {
        return Response(ServerError, None, None, None);
      }
      var saved: Location;
      if latest.Some? {
        saved := Payload(req, status, now, latest.value.locationId);
        locations := locations[key := saved];
      } else {
        saved := Payload(req, status, now, nextId);
        locations := locations[key := saved];
        nextId := nextId + 1;
      }
      resp := Respond(req, fault, status, previous, saved);
    }

    /** The notification part of `handle`, after the write: it reads the contact tables only. */
    method Respond(req: Request, fault: Fault, status: int, previous: Option<int>, saved: Location) returns (resp: Response)
      requires Complete(req)
      ensures resp == Answer(State(), req, fault, status, previous, saved)
    {
      var key := KeyOf(req);
      if previous.Some? && status == previous.value {
        return Response(OK, Some(saved), Some(Skip), None);
      }
      if fault == ContactLookupFails {
        return Response(ServerError, None, Some(Notify(status)), None);
      }
      var user: Option<User> := if key.usersId in users then Some(users[key.usersId]) else None;
      var carer: Option<Carer> := if key in carers && carers[key].takecareStatus == 1 then Some(carers[key]) else None;
      var push: Option<FlexPush> := None;
      if user.Some? && carer.Some? {
        var replyToken := LineIdOf(user.value);
        if replyToken != "" {
          var postback := if status == Breach then Some(Postback(replyToken, key.takecareId)) else None;
          push := Some(FlexPush(replyToken, status, carer.value.fname + " " + carer.value.sname,
                                req.latitude.value, req.longitude.value, postback));
          if fault == PushFails {
            return Response(ServerError, None, Some(Notify(status)), push);
          }
        }
      }
      return Response(OK, Some(saved), Some(Notify(status)), push);
    }
  }
}
