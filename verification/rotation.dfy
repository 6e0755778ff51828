/** The Week/Day rotation of fastapi_app/app/main.py over its two stored
    lists. The store's "weeks" and "days" lists are sequences of parsed
    records, oldest first; every endpoint is a pure function from the store
    to a new store and a result. The clock, fresh UUIDs and the
    language-model output of a new week are inputs. */
module Rotation {
  import opened Prelude
  import opened Text
  import opened Fft

  /** Result-count defaults of `get_weeks` and `get_days`. */
  const DefaultWeeksLimit: int := 10
  const DefaultDaysLimit: int := 50

  const NoWeekMessage: string := "No week found. Please generate a week first."
  const NoMoreDaysMessage: string :=
    "No more days available in the current week. Please generate a new week."

  /** A week of prompts generated from one transcript, with the cursor `day`
      naming the slot the next Day is built from. */
  datatype Week = Week(createdAt: string, day: int, transcript: Transcript, fft: WeeklyFFT)

  /** A Day's metadata: a UUID and an epoch-seconds timestamp. */
  datatype Meta = Meta(id: string, timestamp: int)

  /** The prompt served on one day, with its podcast and metadata. */
  datatype Day = Day(
    createdAt: string,
    foodForThought: string,
    prompt: string,
    podcastName: string,
    podcastUrl: string,
    meta: Meta)

  /** The two stored lists, oldest entry first. */
  datatype Store = Store(weeks: seq<Week>, days: seq<Day>)

  /** What `create_day` needs from the environment: the ISO creation time,
      a fresh UUID and the current epoch seconds. */
  datatype DayInput = DayInput(createdAt: string, id: string, timestamp: int)

  /** The outcome of `create_day`: the Day it stored, or an error message. */
  datatype DayOutcome = Created(day: Day) | Failed(error: string)

  /** Every stored week's cursor names one of its seven slots. */
  ghost predicate CursorsInRange(st: Store) {
    forall k :: 0 <= k < |st.weeks| ==> 1 <= st.weeks[k].day <= SlotCount
  }

  // ---------------------------------------------------------------------
  // Weeks
  // ---------------------------------------------------------------------

  /** The current week is the last one appended, if any. */
  function CurrentWeek(st: Store): (r: Option<Week>)
    ensures r.None? <==> |st.weeks| == 0
    ensures r.Some? ==> r.value in st.weeks
    ensures forall w' :: r == Some(w') ==> st.weeks == st.weeks[..|st.weeks| - 1] + [w']
  {
    if |st.weeks| == 0 then None else Some(st.weeks[|st.weeks| - 1])
  }

  /** `create_week`: appends a fresh week, cursor 1, built from the
      transcript and prompts the language model produced. */
  function CreateWeek(st: Store, createdAt: string, transcript: Transcript, fft: WeeklyFFT)
    : (r: (Store, Week))
    ensures |r.0.weeks| == |st.weeks| + 1
    ensures r.0.weeks[..|st.weeks|] == st.weeks
    ensures CurrentWeek(r.0) == Some(r.1)
    ensures r.1.day == 1 && r.1.transcript == transcript && r.1.fft == fft
    ensures r.1.createdAt == createdAt
    ensures r.0.days == st.days
  {
    var w := Week(createdAt, 1, transcript, fft);
    var st' := Store(st.weeks + [w], st.days);
    assert st'.weeks[..|st.weeks|] == st.weeks;
    (st', w)
  }

  // ---------------------------------------------------------------------
  // Days
  // ---------------------------------------------------------------------

  /** `create_day`: builds a Day from the current week's slot
      `min(day, 7)`, appends it to the days, and overwrites the current week
      with its cursor advanced to `min(day + 1, 7)`. With no week it fails
      with "No week found"; with a cursor below 1 no slot has that name and
      it fails with "No more days"; in both cases nothing is stored. */
  function CreateDay(st: Store, input: DayInput): (r: (Store, DayOutcome))
    ensures |st.weeks| == 0 ==> r == (st, Failed(NoWeekMessage))
    ensures |st.weeks| > 0 && st.weeks[|st.weeks| - 1].day < 1
            ==> r == (st, Failed(NoMoreDaysMessage))
    ensures r.1.Failed? ==> r.0 == st
    ensures r.1.Created? <==> |st.weeks| > 0 && st.weeks[|st.weeks| - 1].day >= 1
    ensures r.1.Created? ==>
      var n := |st.weeks|;
      var w := st.weeks[n - 1];
      var slot := w.fft[Min(w.day, SlotCount) - 1];
      && r.1.day.foodForThought == slot.foodForThought
      && r.1.day.prompt == slot.journal
      && r.1.day.podcastName == w.transcript.name
      && r.1.day.podcastUrl == w.transcript.url
      && r.1.day.createdAt == input.createdAt
      && r.1.day.meta == Meta(input.id, input.timestamp)
      && r.0.days == st.days + [r.1.day]
      && |r.0.weeks| == n
      && r.0.weeks[..n - 1] == st.weeks[..n - 1]
      && r.0.weeks[n - 1] == w.(day := Min(w.day + 1, SlotCount))
  {
    match CurrentWeek(st)
    case None => (st, Failed(NoWeekMessage))
    case Some(w) =>
      match Slot(w.fft, Min(w.day, SlotCount))
      case None => (st, Failed(NoMoreDaysMessage))
      case Some(f) =>
        var d := Day(input.createdAt, f.foodForThought, f.journal,
                     w.transcript.name, w.transcript.url,
                     Meta(input.id, input.timestamp));
        var n := |st.weeks|;
        var st' := Store(st.weeks[..n - 1] + [w.(day := Min(w.day + 1, SlotCount))],
                         st.days + [d]);
        assert st'.weeks[..n - 1] == st.weeks[..n - 1];
        (st', Created(d))
  }

  /** A cursor in 1..7 stays in 1..7, and a store whose cursors are all in
      range keeps them in range. */
  lemma CreateDayKeepsCursorsInRange(st: Store, input: DayInput)
    requires CursorsInRange(st)
    ensures CursorsInRange(CreateDay(st, input).0)
  {
  }

  /** The result of `n` successive `create_day` calls. */
  function CreateDays(st: Store, inputs: seq<DayInput>): (r: (Store, seq<DayOutcome>))
    ensures |r.1| == |inputs|
    decreases |inputs|
  {
    if |inputs| == 0 then (st, [])
    else
      var step := CreateDay(st, inputs[0]);
      var more := CreateDays(step.0, inputs[1..]);
      (more.0, [step.1] + more.1)
  }

  /** The current week and the stored cursor-in-range condition. */
  ghost predicate CursorReady(st: Store) {
    |st.weeks| > 0 && 1 <= st.weeks[|st.weeks| - 1].day <= SlotCount
  }

  /** The Day served by week `w` on the i-th call after now reads slot
      `min(c + i, 7)`, where c is the week's cursor. */
  ghost predicate ServesSlot(w: Week, i: nat, d: Day) {
    && 1 <= w.day
    && d.foodForThought == w.fft[Min(w.day + i, SlotCount) - 1].foodForThought
    && d.prompt == w.fft[Min(w.day + i, SlotCount) - 1].journal
    && d.podcastName == w.transcript.name
    && d.podcastUrl == w.transcript.url
  }

  /** Over successive `create_day` calls the week list keeps its length and
      its older weeks, and the current week changes only in its cursor,
      which ends at `min(c + calls, 7)`. */
  lemma {:induction false} CreateDaysWeeks(st: Store, inputs: seq<DayInput>)
    requires CursorReady(st)
    ensures var st' := CreateDays(st, inputs).0;
      var n := |st.weeks|;
      && |st'.weeks| == n
      && st'.weeks[..n - 1] == st.weeks[..n - 1]
      && st'.weeks[n - 1]
         == st.weeks[n - 1].(day := Min(st.weeks[n - 1].day + |inputs|, SlotCount))
    decreases |inputs|
  {
    if |inputs| > 0 {
      var n := |st.weeks|;
      var w := st.weeks[n - 1];
      var st1 := CreateDay(st, inputs[0]).0;
      var w1 := w.(day := Min(w.day + 1, SlotCount));
      assert st1.weeks[n - 1] == w1;
      assert CursorReady(st1);
      CreateDaysWeeks(st1, inputs[1..]);
      var st2 := CreateDays(st1, inputs[1..]).0;
      assert CreateDays(st, inputs).0 == st2;
      assert Min(w1.day + |inputs[1..]|, SlotCount) == Min(w.day + |inputs|, SlotCount);
    }
  }

  /** Over successive `create_day` calls every call succeeds, and the i-th
      serves slot `min(c + i, 7)` of the current week. */
  lemma {:induction false} CreateDaysServe(st: Store, w: Week, inputs: seq<DayInput>)
    requires CursorReady(st) && CurrentWeek(st) == Some(w)
    ensures forall i :: 0 <= i < |inputs| ==>
      CreateDays(st, inputs).1[i].Created? && ServesSlot(w, i, CreateDays(st, inputs).1[i].day)
    decreases |inputs|
  {
    if |inputs| > 0 {
      var n := |st.weeks|;
      var step := CreateDay(st, inputs[0]);
      var w1 := w.(day := Min(w.day + 1, SlotCount));
      assert |step.0.weeks| == n && step.0.weeks[n - 1] == w1;
      CreateDaysServe(step.0, w1, inputs[1..]);
      var rest := CreateDays(step.0, inputs[1..]).1;
      var outs := CreateDays(st, inputs).1;
      assert outs == [step.1] + rest;
      forall i | 0 <= i < |inputs|
        ensures outs[i].Created? && ServesSlot(w, i, outs[i].day)
      {
        if i > 0 {
          assert outs[i] == rest[i - 1];
          assert rest[i - 1].Created? && ServesSlot(w1, i - 1, rest[i - 1].day);
          assert Min(w1.day + (i - 1), SlotCount) == Min(w.day + i, SlotCount);
        }
      }
    }
  }

  /** Successive `create_day` calls append exactly the Days they return, in
      call order, and leave the earlier Days alone. */
  lemma {:induction false} CreateDaysAppend(st: Store, inputs: seq<DayInput>)
    requires CursorReady(st)
    ensures var (st', outs) := CreateDays(st, inputs);
      && |st'.days| == |st.days| + |inputs|
      && st'.days[..|st.days|] == st.days
      && forall i :: 0 <= i < |inputs| ==> outs[i] == Created(st'.days[|st.days| + i])
    decreases |inputs|
  {
    if |inputs| > 0 {
      var (st1, first) := CreateDay(st, inputs[0]);
      CreateDaysWeeks(st, inputs[..1]);
      assert CursorReady(st1);
      CreateDaysAppend(st1, inputs[1..]);
      var (st2, rest) := CreateDays(st1, inputs[1..]);
      assert st1.days == st.days + [first.day];
      assert st2.days[..|st.days|] == st.days by {
        assert st2.days[..|st.days|] == st2.days[..|st1.days|][..|st.days|];
      }
      var outs := [first] + rest;
      forall i | 0 <= i < |inputs|
        ensures outs[i] == Created(st2.days[|st.days| + i])
      {
        if i == 0 {
          assert st2.days[|st.days|] == st2.days[..|st1.days|][|st.days|];
        } else {
          assert outs[i] == rest[i - 1];
        }
      }
    }
  }

  /** The slot the i-th call after a fresh week reads, counted from 0:
      slot `min(1 + i, 7)` is position i for the first seven calls and
      position 6 afterwards. */
  lemma CappedIndex(i: nat)
    ensures Min(1 + i, SlotCount) - 1 == (if i < SlotCount then i else SlotCount - 1)
  {
  }

  /** After a fresh week and k `create_day` calls the current week is that
      week with cursor `min(1 + k, 7)`; from the sixth call on the cursor
      sits at 7. */
  lemma FreshWeekCursor(
    st: Store, createdAt: string, transcript: Transcript, fft: WeeklyFFT,
    inputs: seq<DayInput>)
    ensures var made := CreateWeek(st, createdAt, transcript, fft);
      var st' := CreateDays(made.0, inputs).0;
      && CurrentWeek(st') == Some(made.1.(day := Min(1 + |inputs|, SlotCount)))
      && (|inputs| >= SlotCount - 1 ==> CurrentWeek(st').value.day == SlotCount)
  {
    var made := CreateWeek(st, createdAt, transcript, fft);
    assert made.0.weeks[|made.0.weeks| - 1] == made.1;
    assert CursorReady(made.0);
    CreateDaysWeeks(made.0, inputs);
  }

  /** A freshly created week serves its slots 1 to 7 in order on the first
      seven `create_day` calls, and slot 7 on every later call. */
  lemma FreshWeekServesSlotsInOrder(
    st: Store, createdAt: string, transcript: Transcript, fft: WeeklyFFT,
    inputs: seq<DayInput>)
    ensures var made := CreateWeek(st, createdAt, transcript, fft);
      var outs := CreateDays(made.0, inputs).1;
      forall i :: 0 <= i < |inputs| ==>
        && outs[i].Created?
        && outs[i].day.foodForThought == fft[if i < SlotCount then i else SlotCount - 1].foodForThought
        && outs[i].day.prompt == fft[if i < SlotCount then i else SlotCount - 1].journal
  {
    var made := CreateWeek(st, createdAt, transcript, fft);
    var w := made.1;
    assert made.0.weeks[|made.0.weeks| - 1] == w;
    CreateDaysServe(made.0, w, inputs);
    var outs := CreateDays(made.0, inputs).1;
    forall i | 0 <= i < |inputs|
      ensures outs[i].Created?
      ensures outs[i].day.foodForThought == fft[if i < SlotCount then i else SlotCount - 1].foodForThought
      ensures outs[i].day.prompt == fft[if i < SlotCount then i else SlotCount - 1].journal
    {
      assert ServesSlot(w, i, outs[i].day);
      CappedIndex(i);
    }
  }

  /** Once the cursor has reached 7 the week is not exhausted: each
      further `create_day` serves slot 7 again and the cursor stays at 7. */
  lemma CappedCursorRepeatsLastSlot(st: Store, input: DayInput)
    requires |st.weeks| > 0 && st.weeks[|st.weeks| - 1].day >= SlotCount
    ensures var w := st.weeks[|st.weeks| - 1];
      var r := CreateDay(st, input);
      && r.1.Created?
      && r.1.day.foodForThought == w.fft[SlotCount - 1].foodForThought
      && r.1.day.prompt == w.fft[SlotCount - 1].journal
      && r.0.weeks[|st.weeks| - 1].day == SlotCount
  {
  }

  // ---------------------------------------------------------------------
  // Listings
  // ---------------------------------------------------------------------

  /** The entries of `xs`, newest first. */
  function Reverse<T>(xs: seq<T>): (r: seq<T>)
    ensures |r| == |xs|
    ensures forall i :: 0 <= i < |xs| ==> r[i] == xs[|xs| - 1 - i]
  {
    if |xs| == 0 then [] else [xs[|xs| - 1]] + Reverse(xs[..|xs| - 1])
  }

  /** How many entries a listing with this limit returns:
      `len(range(1, min(limit, size) + 1))`. */
  function ListedCount(limit: int, size: nat): (r: nat)
    ensures r <= size
    ensures limit <= 0 ==> r == 0
    ensures 0 <= limit <= size ==> r == limit
    ensures limit >= size ==> r == size
  {
    if limit <= 0 then 0 else Min(limit, size)
  }

  /** The reference meaning of a listing: the newest `min(limit, |xs|)`
      entries, newest first (none when the limit is not positive). */
  function Recent<T>(xs: seq<T>, limit: int): (r: seq<T>)
    ensures |r| == ListedCount(limit, |xs|)
    ensures forall i :: 0 <= i < |r| ==> r[i] == xs[|xs| - 1 - i]
  {
    Reverse(xs)[..ListedCount(limit, |xs|)]
  }

  /** The listing loop of `get_weeks` and `get_days`: reads positions -1,
      -2, ... of the list for `i` in `range(1, min(limit, len) + 1)`. */
  method ListRecent<T>(xs: seq<T>, limit: int) returns (r: seq<T>)
    ensures r == Recent(xs, limit)
  {
    r := [];
    var bound := Min(limit, |xs|);
    var i := 1;
    while i < bound + 1
      invariant 1 <= i <= (if bound >= 1 then bound + 1 else 1)
      invariant |r| == i - 1
      invariant forall k :: 0 <= k < |r| ==> r[k] == xs[|xs| - 1 - k]
    {
      r := r + [xs[|xs| - i]];
      i := i + 1;
    }
    assert |r| == ListedCount(limit, |xs|);
  }

  /** `get_weeks`: the newest weeks, 10 when no limit is given. */
  function GetWeeks(st: Store, limit: Option<int>): (r: seq<Week>)
    ensures limit.None? ==> |r| == Min(DefaultWeeksLimit, |st.weeks|)
    ensures r == Recent(st.weeks, ValueOr(limit, DefaultWeeksLimit))
  {
    Recent(st.weeks, ValueOr(limit, DefaultWeeksLimit))
  }

  /** `get_days`: the newest days, 50 when no limit is given. */
  function GetDays(st: Store, limit: Option<int>): (r: seq<Day>)
    ensures limit.None? ==> |r| == Min(DefaultDaysLimit, |st.days|)
    ensures r == Recent(st.days, ValueOr(limit, DefaultDaysLimit))
  {
    Recent(st.days, ValueOr(limit, DefaultDaysLimit))
  }

  /** A listing is a prefix of the whole list read newest first, so a
      larger limit only adds older entries at the end. */
  lemma RecentIsMonotone<T>(xs: seq<T>, small: int, large: int)
    requires small <= large
    ensures Recent(xs, small) == Recent(xs, large)[..|Recent(xs, small)|]
  {
  }

  // ---------------------------------------------------------------------
  // Trigger
  // ---------------------------------------------------------------------

  /** A JSON value as parsed from a request body, for fields typed `Any`
      (numbers are integers here). */
  datatype Json =
    | JNull
    | JBool(b: bool)
    | JNumber(n: int)
    | JString(s: string)
    | JArray(items: seq<Json>)
    | JObject(members: seq<(string, Json)>)

  /** The automation platform's trigger payload. Its fields are only
      validated for presence; the handler ignores them, `limit` included. */
  datatype TriggerPayload = TriggerPayload(
    triggerIdentity: string,
    triggerFields: map<string, Json>,
    limit: Option<int>,
    userTimezone: string,
    source: Option<(string, string)>)

  /** `new_fft`: the newest Day with its timestamp refreshed to `now`, or
      nothing when no Day is stored. */
  function NewFft(st: Store, payload: TriggerPayload, now: int): (r: seq<Day>)
    ensures |r| <= 1
    ensures |r| == 0 <==> |st.days| == 0
    ensures |r| == 1 ==>
      var last := st.days[|st.days| - 1];
      && r[0].meta.timestamp == now
      && r[0].meta.id == last.meta.id
      && r[0].(meta := last.meta) == last
  {
    if |st.days| == 0 then []
    else
      var last := st.days[|st.days| - 1];
      [last.(meta := last.meta.(timestamp := now))]
  }

  /** The trigger's answer depends on the store and the clock only. */
  lemma NewFftIgnoresPayload(st: Store, p: TriggerPayload, q: TriggerPayload, now: int)
    ensures NewFft(st, p, now) == NewFft(st, q, now)
  {
  }

  /** After a successful `create_day`, the trigger serves exactly that Day,
      with its timestamp refreshed, and `get_days` lists it first. */
  lemma TriggerServesNewestDay(st: Store, input: DayInput, payload: TriggerPayload, now: int)
    requires CreateDay(st, input).1.Created?
    ensures var (st', out) := CreateDay(st, input);
      && NewFft(st', payload, now) == [out.day.(meta := out.day.meta.(timestamp := now))]
      && GetDays(st', Some(1)) == [out.day]
  {
  }
}
