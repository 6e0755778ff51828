/** The HTTP surface of fastapi_app/app/main.py: the shared-secret
    middleware in front of every route, and the seven routes themselves over
    the rotation store. The configured key is the value of the
    IFTTT_SERVICE_KEY environment variable, None when it is unset. */
module Api {
  import opened Prelude
  import opened Text
  import opened Fft
  import opened Rotation

  const ServiceKeyHeader: string := "IFTTT-Service-Key"
  const UnauthorizedStatus: int := 401
  const UnauthorizedMessage: string := "Unauthorized"
  const WeekCreatedMessage: string := "Weekly FFT generated and stored."
  const DayCreatedMessage: string := "Day created and stored."

  /** The second element of the pair `create_day` returns on an error. */
  const ErrorCode: int := 400

  /** One request header as received. */
  datatype Header = Header(name: string, value: string)

  // ---------------------------------------------------------------------
  // The shared-secret middleware
  // ---------------------------------------------------------------------

  /** Header names compare without regard to ASCII case: the server lowers
      the received names and the lookup lowers the asked-for one. */
  predicate NameMatches(h: Header, name: string) {
    LowerAscii(h.name) == LowerAscii(name)
  }

  /** Position `i` holds the first header called `name`. */
  ghost predicate FirstMatch(hs: seq<Header>, name: string, i: int) {
    && 0 <= i < |hs|
    && NameMatches(hs[i], name)
    && forall j :: 0 <= j < i ==> !NameMatches(hs[j], name)
  }

  /** `headers[name]`: the value of the first header called `name`, or None
      when the request carries no such header. */
  function HeaderValue(hs: seq<Header>, name: string): (r: Option<string>)
    ensures r.None? <==> forall i :: 0 <= i < |hs| ==> !NameMatches(hs[i], name)
    ensures r.Some? ==> exists i :: FirstMatch(hs, name, i) && hs[i].value == r.value
  {
    if |hs| == 0 then None
    else if NameMatches(hs[0], name) then
      assert FirstMatch(hs, name, 0);
      Some(hs[0].value)
    else
      var r := HeaderValue(hs[1..], name);
      assert r.Some? ==> exists i :: FirstMatch(hs, name, i) && hs[i].value == r.value by {
        if r.Some? {
          var i :| FirstMatch(hs[1..], name, i) && hs[1..][i].value == r.value;
          assert FirstMatch(hs, name, i + 1);
        }
      }
      r
  }

  /** `check_service_key`: a request passes when the key is configured, the
      service-key header is present, and its first value equals the key. An
      unset key rejects every request, since no header value equals None. */
  function Authorized(hs: seq<Header>, key: Option<string>): (r: bool)
    ensures r <==>
      key.Some? && exists i :: FirstMatch(hs, ServiceKeyHeader, i) && hs[i].value == key.value
  {
    key.Some? && HeaderValue(hs, ServiceKeyHeader) == Some(key.value)
  }

  /** A header names the service key exactly when its name lowers to
      `ifttt-service-key`, that is, when it spells `IFTTT-Service-Key` in
      any mix of ASCII case. */
  lemma ServiceKeyHeaderName(h: Header)
    ensures NameMatches(h, ServiceKeyHeader) <==> LowerAscii(h.name) == "ifttt-service-key"
    ensures NameMatches(h, ServiceKeyHeader) <==>
      |h.name| == |ServiceKeyHeader|
      && forall i :: 0 <= i < |h.name| ==> SameIgnoringCase(h.name[i], ServiceKeyHeader[i])
  {
    assert LowerAscii(ServiceKeyHeader) == "ifttt-service-key";
    LowerAsciiEqualIff(h.name, ServiceKeyHeader);
  }

  /** The name test ignores ASCII case: all-lower and all-upper spellings
      of the header name pass it. */
  lemma ServiceKeyHeaderCaseVariants(v: string)
    ensures NameMatches(Header("ifttt-service-key", v), ServiceKeyHeader)
    ensures NameMatches(Header("IFTTT-SERVICE-KEY", v), ServiceKeyHeader)
  {
    assert LowerAscii(ServiceKeyHeader) == "ifttt-service-key";
    assert LowerAscii("ifttt-service-key") == "ifttt-service-key";
    assert LowerAscii("IFTTT-SERVICE-KEY") == "ifttt-service-key";
  }

  /** Case is all the name test forgives: underscores for dashes fail it. */
  lemma ServiceKeyHeaderNearMiss(v: string)
    ensures !NameMatches(Header("IFTTT_Service_Key", v), ServiceKeyHeader)
  {
    assert LowerAscii("IFTTT_Service_Key")[5] == '_';
    assert LowerAscii(ServiceKeyHeader)[5] == '-';
  }

  // ---------------------------------------------------------------------
  // Routes
  // ---------------------------------------------------------------------

  /** The seven routes, each with the environment inputs it consumes: the
      clock, a fresh UUID, and for `create_week` the transcript and prompts
      the language model returned. */
  datatype Call =
    | Status
    | TestSetup
    | NewFftTrigger(payload: TriggerPayload, now: int)
    | CreateWeekCall(createdAt: string, transcript: Transcript, fft: WeeklyFFT)
    | GetWeeksCall(weeksLimit: Option<int>)
    | CreateDayCall(input: DayInput)
    | GetDaysCall(daysLimit: Option<int>)

  datatype Request = Request(headers: seq<Header>, call: Call)

  /** Response bodies. `Rejected` is the middleware's 401 with its list of
      error messages; `ErrorPair` is the `(payload, 400)` pair `create_day`
      returns on an error, which the framework sends as the body. */
  datatype Response =
    | Rejected(status: int, errors: seq<string>)
    | Empty
    | SetupData(accessToken: Option<string>)
    | TriggerData(data: seq<Day>)
    | WeekCreated(weekMessage: string, week: Week)
    | WeekList(weeks: seq<Week>)
    | DayCreated(dayMessage: string, day: Day)
    | ErrorPair(error: string, code: int)
    | DayList(days: seq<Day>)

  /** A route only reads the store. */
  predicate ReadOnly(c: Call) {
    !c.CreateWeekCall? && !c.CreateDayCall?
  }

  /** The route handlers, run once the middleware has let a request pass. */
  function Route(st: Store, key: Option<string>, c: Call): (r: (Store, Response))
    ensures ReadOnly(c) ==> r.0 == st
    ensures c.TestSetup? ==> r.1 == SetupData(key)
    ensures c.CreateWeekCall? ==> r.1.WeekCreated? && CurrentWeek(r.0) == Some(r.1.week)
    ensures c.CreateDayCall? ==> (r.1.DayCreated? <==> r.0 != st)
  {
    match c
    case Status => (st, Empty)
    case TestSetup => (st, SetupData(key))
    case NewFftTrigger(payload, now) => (st, TriggerData(NewFft(st, payload, now)))
    case CreateWeekCall(createdAt, transcript, fft) =>
      var made := CreateWeek(st, createdAt, transcript, fft);
      (made.0, WeekCreated(WeekCreatedMessage, made.1))
    case GetWeeksCall(limit) => (st, WeekList(GetWeeks(st, limit)))
    case CreateDayCall(input) =>
      var made := CreateDay(st, input);
      (match made.1
       case Created(d) =>
         assert |made.0.days| == |st.days| + 1;
         (made.0, DayCreated(DayCreatedMessage, d))
       case Failed(e) => (made.0, ErrorPair(e, ErrorCode)))
    case GetDaysCall(limit) => (st, DayList(GetDays(st, limit)))
  }

  /** One request through the middleware and, if it passes, its route. */
  function Handle(st: Store, key: Option<string>, req: Request): (r: (Store, Response))
    ensures !Authorized(req.headers, key) ==>
      r == (st, Rejected(UnauthorizedStatus, [UnauthorizedMessage]))
    ensures r.1.Rejected? <==> !Authorized(req.headers, key)
    ensures key.None? ==> r.0 == st && r.1.Rejected?
    ensures r.1.SetupData? ==> r.1.accessToken == HeaderValue(req.headers, ServiceKeyHeader)
    ensures ReadOnly(req.call) ==> r.0 == st
  {
    if !Authorized(req.headers, key) then
      (st, Rejected(UnauthorizedStatus, [UnauthorizedMessage]))
    else
      Route(st, key, req.call)
  }

  /** A sequence of requests handled one after another. */
  function Run(st: Store, key: Option<string>, reqs: seq<Request>): (r: (Store, seq<Response>))
    ensures |r.1| == |reqs|
    decreases |reqs|
  {
    if |reqs| == 0 then (st, [])
    else
      var step := Handle(st, key, reqs[0]);
      var more := Run(step.0, key, reqs[1..]);
      (more.0, [step.1] + more.1)
  }

  // ---------------------------------------------------------------------
  // Store invariants over any run
  // ---------------------------------------------------------------------

  /** Each request keeps every stored cursor in 1..7. */
  lemma HandleKeepsCursorsInRange(st: Store, key: Option<string>, req: Request)
    requires CursorsInRange(st)
    ensures CursorsInRange(Handle(st, key, req).0)
  {
  }

  /** Any run of requests keeps every stored cursor in 1..7. */
  lemma {:induction false} RunKeepsCursorsInRange(st: Store, key: Option<string>, reqs: seq<Request>)
    requires CursorsInRange(st)
    ensures CursorsInRange(Run(st, key, reqs).0)
    decreases |reqs|
  {
    if |reqs| > 0 {
      HandleKeepsCursorsInRange(st, key, reqs[0]);
      RunKeepsCursorsInRange(Handle(st, key, reqs[0]).0, key, reqs[1..]);
    }
  }

  /** The weeks no request may change any more: all but the current one. */
  function Settled(st: Store): (r: seq<Week>)
    ensures |st.weeks| > 0 ==> |r| == |st.weeks| - 1
    ensures r <= st.weeks
  {
    if |st.weeks| == 0 then [] else st.weeks[..|st.weeks| - 1]
  }

  /** `w'` is `w` with at most its cursor changed. */
  predicate SameButCursor(w: Week, w': Week) {
    w'.(day := w.day) == w
  }

  /** The stores are append-only apart from the current week's cursor: the
      settled weeks and all days of `st` are kept, in place, by `st'`, and
      every week of `st` is still there with at most its cursor changed. */
  ghost predicate Extends(st: Store, st': Store) {
    && |st.weeks| <= |st'.weeks|
    && Settled(st) <= Settled(st')
    && st.days <= st'.days
    && forall k :: 0 <= k < |st.weeks| ==> SameButCursor(st.weeks[k], st'.weeks[k])
  }

  lemma ExtendsTransitive(a: Store, b: Store, c: Store)
    requires Extends(a, b) && Extends(b, c)
    ensures Extends(a, c)
  {
  }

  /** `create_week` extends the store: it only appends. */
  lemma CreateWeekExtends(st: Store, createdAt: string, transcript: Transcript, fft: WeeklyFFT)
    ensures Extends(st, CreateWeek(st, createdAt, transcript, fft).0)
  {
    var st' := CreateWeek(st, createdAt, transcript, fft).0;
    assert forall k :: 0 <= k < |st.weeks| ==> st'.weeks[k] == st.weeks[k];
  }

  /** `create_day` extends the store: it appends a Day and changes only the
      current week's cursor. */
  lemma CreateDayExtends(st: Store, input: DayInput)
    ensures Extends(st, CreateDay(st, input).0)
  {
    var st' := CreateDay(st, input).0;
    if st' != st {
      var n := |st.weeks|;
      assert forall k :: 0 <= k < n - 1 ==> st'.weeks[k] == st'.weeks[..n - 1][k];
      assert SameButCursor(st.weeks[n - 1], st'.weeks[n - 1]);
    }
  }

  /** Each request extends the store. */
  lemma HandleExtends(st: Store, key: Option<string>, req: Request)
    ensures Extends(st, Handle(st, key, req).0)
  {
    if Authorized(req.headers, key) {
      match req.call
      case CreateWeekCall(createdAt, transcript, fft) =>
        CreateWeekExtends(st, createdAt, transcript, fft);
      case CreateDayCall(input) =>
        CreateDayExtends(st, input);
      case _ =>
    }
  }

  /** Any run of requests extends the store: only the current week's cursor
      is ever overwritten, and nothing is ever removed or reordered. */
  lemma {:induction false} RunExtends(st: Store, key: Option<string>, reqs: seq<Request>)
    ensures Extends(st, Run(st, key, reqs).0)
    decreases |reqs|
  {
    if |reqs| > 0 {
      var st1 := Handle(st, key, reqs[0]).0;
      HandleExtends(st, key, reqs[0]);
      RunExtends(st1, key, reqs[1..]);
      ExtendsTransitive(st, st1, Run(st1, key, reqs[1..]).0);
    }
  }

  /** Without the right key no run changes the store, and every response
      is the 401 rejection. */
  lemma {:induction false} RunWithoutKey(st: Store, key: Option<string>, reqs: seq<Request>)
    requires forall k :: 0 <= k < |reqs| ==> !Authorized(reqs[k].headers, key)
    ensures Run(st, key, reqs).0 == st
    ensures forall k :: 0 <= k < |reqs| ==>
      Run(st, key, reqs).1[k] == Rejected(UnauthorizedStatus, [UnauthorizedMessage])
    decreases |reqs|
  {
    if |reqs| > 0 {
      RunWithoutKey(st, key, reqs[1..]);
      var rest := Run(st, key, reqs[1..]).1;
      assert Run(st, key, reqs).1 == [Rejected(UnauthorizedStatus, [UnauthorizedMessage])] + rest;
    }
  }

  /** With no week stored, `create_day` answers "No week found" and
      changes nothing. */
  lemma NoWeekScenario(key: Option<string>, days: seq<Day>, input: DayInput)
    ensures Route(Store([], days), key, CreateDayCall(input))
         == (Store([], days), ErrorPair(NoWeekMessage, ErrorCode))
  {
    assert CreateDay(Store([], days), input).1 == Failed(NoWeekMessage);
  }

  /** Right after `create_week`, `create_day` serves slot 1 and moves the
      cursor to 2. */
  lemma FirstDayScenario(
    st: Store, key: Option<string>,
    createdAt: string, transcript: Transcript, fft: WeeklyFFT, input: DayInput)
    ensures var b := Route(st, key, CreateWeekCall(createdAt, transcript, fft));
      var c := Route(b.0, key, CreateDayCall(input));
      && c.1.DayCreated?
      && c.1.day.foodForThought == fft[0].foodForThought
      && c.1.day.prompt == fft[0].journal
      && CurrentWeek(c.0) == Some(Week(createdAt, 2, transcript, fft))
  {
    var b := Route(st, key, CreateWeekCall(createdAt, transcript, fft));
    var w := Week(createdAt, 1, transcript, fft);
    assert CurrentWeek(b.0) == Some(w);
    var made := CreateDay(b.0, input);
    assert made.1.Created?;
    var n := |b.0.weeks|;
    assert made.0.weeks[n - 1] == w.(day := 2);
    var c := Route(b.0, key, CreateDayCall(input));
    assert c == (made.0, DayCreated(DayCreatedMessage, made.1.day));
  }
}
