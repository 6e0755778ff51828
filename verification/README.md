# Food-For-Thought: the Week/Day rotation, in Dafny

This project models the core of the Food-For-Thought service. The service
stores weeks of seven "food for thought" journal prompts, which a language
model generates from a podcast transcript. Each day it serves one prompt to an
automation platform. The model covers:

- **Store and rotation** (`rotation.dfy`, module `Rotation`). The store has two
  append-only lists, `weeks` and `days`, oldest first. `create_week` appends a
  Week whose cursor `day` is 1. `create_day` reads the newest Week and builds a
  Day from slot `min(day, 7)`. It appends that Day, then overwrites the newest
  Week in place with cursor `min(day + 1, 7)`. `get_weeks` and `get_days` list
  the newest entries first, up to a limit. The `new_fft` trigger returns the
  newest Day with a fresh timestamp, without storing that change.
- **HTTP surface** (`api.dfy`, module `Api`). The shared-secret middleware sits
  in front of every route. It checks the `IFTTT-Service-Key` header against the
  configured `IFTTT_SERVICE_KEY`. Behind it are the seven routes and runs of
  requests over the store.
- **Records and string routines of `fft.py`** (`fft.dfy`, module `Fft`). These
  are `Transcript`, `FoodForThought` and `WeeklyFFT`. A `WeeklyFFT` is exactly
  seven slots, with field `food_for_thought_n` at position n - 1. The module
  also has the filter-and-format step of the transcript index listing and the
  join-or-degrade step of fetching a transcript's text.
- **String helpers** (`text.dfy`, module `Text`). This module has Python's
  `sep.join`, `str.split` as its reference inverse, and the substring test
  `needle in hay`. It also lowers ASCII letters in header names.
- **Building blocks** (`prelude.dfy`, module `Prelude`). This module has the
  optional value that stands for Python's `None`, the default an absent
  optional argument takes, and `min`.

The clock, fresh UUIDs and the language model's output are inputs to the
operations. For example, `create_week` receives the `Transcript` and the
`WeeklyFFT` the model returned.

Two behaviours follow the code rather than what the service's design
intends:

- **No exhaustion after seven days.** The cursor is capped at 7
  (`fastapi_app/app/main.py:193`), and every `WeeklyFFT` has all seven slots.
  So after the seventh Day, each further `create_day` serves slot 7 again. The
  "No more days available" error comes only from a stored cursor below 1: then
  `food_for_thought_{n}` names no field, and nothing is stored.
- **Errors are not 4xx responses.** `create_day` returns the pair
  `(payload, 400)` on its two errors. The framework sends that pair as the body
  of a response with the route's declared status. The model returns it as the
  `ErrorPair` response and does not state an HTTP status for it.

## Model

| member | source | states |
|---|---|---|
| Text.Contains | fastapi_app/app/fft.py:44 | `needle in hay` holds exactly when some position of `hay` starts an occurrence of `needle` |
| Text.Join | fastapi_app/app/fft.py:47 | `sep.join` of no parts is "", of one part is that part, and in general is as long as the parts together plus one separator per pair of neighbours |
| Text.JoinLast | fastapi_app/app/fft.py:47 | the join of two or more parts is the join of all but the last, the separator, then the last part; with the front step of the definition this places every part, in order |
| Text.IntToString | fastapi_app/app/main.py:170 | `str(n)` starts with a minus sign exactly for negative n, is all digits otherwise, and is one character long exactly for 0..9 |
| Text.NatToStringRoundTrip | fastapi_app/app/main.py:170 | reading back the decimal digits `str(n)` writes gives n |
| Text.SingleDigitString | fastapi_app/app/main.py:170 | `str(n)` is the single digit d (1..9) exactly when n is d |
| Text.LowerAscii | fastapi_app/app/main.py:79-80 | lowering a header name keeps its length, leaves no upper-case ASCII letter, keeps every other character, and changes each character only to its equal up to case |
| Text.LowerAsciiIdempotent | fastapi_app/app/main.py:79-80 | lowering an already lowered name changes nothing |
| Text.LowerAsciiEqualIff | fastapi_app/app/main.py:79-80 | two names lower to the same string exactly when they have the same length and agree position by position up to ASCII case |
| Text.JoinSplit | fastapi_app/app/fft.py:47 | splitting a newline-joined string at newlines and joining again gives back the string |
| Text.SplitJoin | fastapi_app/app/fft.py:47 | joining a non-empty list of newline-free lines, then splitting, recovers the lines: no line is lost, merged or added |
| Fft.GetAttr | fastapi_app/app/fft.py:23-31 | `getattr(w, name, None)` finds a field exactly when `name` is one of the seven declared field names, and then it is that field |
| Fft.FieldNamesDistinct | fastapi_app/app/fft.py:25-31 | no two of the seven fields share a name |
| Fft.FieldNameIs | fastapi_app/app/main.py:170 | the computed name `food_for_thought_{n}` is field k's name exactly when n is k + 1 |
| Fft.SlotIsGetAttr | fastapi_app/app/main.py:170-171 | looking up `food_for_thought_{n}` finds a field exactly when n is in 1..7, and it is field n, element n - 1 |
| Fft.SlotOfCursor | fastapi_app/app/main.py:169-174 | with the cursor capped at 7, a slot is found exactly when the cursor is at least 1: the cursor's own slot up to 7, slot 7 beyond |
| Fft.Keeps | fastapi_app/app/fft.py:44 | an anchor is kept exactly when `https://tim.blog` occurs at some position of its href |
| Fft.KeptAnchors | fastapi_app/app/fft.py:41-45 | the kept anchors are exactly the page's anchors whose href contains `https://tim.blog` |
| Fft.KeptAnchorsAppend | fastapi_app/app/fft.py:41-45 | filtering keeps document order: the kept anchors of two consecutive stretches of the page are the kept anchors of each, in order |
| Fft.LinkLine | fastapi_app/app/fft.py:45 | a listing line is exactly the anchor text, then ` - `, then the href, and holds no newline unless the text or href does |
| Fft.LinkLines | fastapi_app/app/fft.py:41-45 | one listing line per anchor, and a line holds no newline unless its anchor's text or href does |
| Fft.ListTranscriptLinks | fastapi_app/app/fft.py:35-47 | the loop over anchors produces the newline-join of one `text - href` line per kept anchor, and produces "" exactly when no href contains the base URL |
| Fft.ListingEmptyIffNoneKept | fastapi_app/app/fft.py:40-47 | the listing is empty if and only if no anchor is kept |
| Fft.ListingLines | fastapi_app/app/fft.py:44-47 | when some anchor is kept and no text or href contains a newline, reading the listing line by line gives the kept anchors' lines in document order |
| Fft.TranscriptContent | fastapi_app/app/fft.py:61-73 | a failed request degrades to "" instead of raising; one paragraph is the content unchanged |
| Fft.ContentParagraphs | fastapi_app/app/fft.py:69-70 | the transcript content read back line by line gives the paragraphs, when there is at least one and none contains a newline |
| Fft.ContentLength | fastapi_app/app/fft.py:69-70 | the content is as long as the paragraph texts together plus one newline per pair of neighbours |
| Fft.ContentLastParagraph | fastapi_app/app/fft.py:69-70 | the content of two or more paragraphs is the content of all but the last, a newline, then the last paragraph's text |
| Rotation.CurrentWeek | fastapi_app/app/main.py:162-166 | there is a current week exactly when `weeks` is non-empty, and it is the last entry |
| Rotation.CreateWeek | fastapi_app/app/main.py:119-139 | appends exactly one week, cursor 1, which becomes the current week; earlier weeks and all days are unchanged |
| Rotation.CreateDay | fastapi_app/app/main.py:157-196 | with no week: "No week found", store unchanged; with cursor below 1: "No more days", store unchanged; otherwise appends one Day carrying slot `min(c,7)` and the week's podcast, and replaces only the current week, with cursor `min(c+1,7)` |
| Rotation.CreateDayKeepsCursorsInRange | fastapi_app/app/main.py:169-194 | if every stored cursor is in 1..7, it still is after `create_day` |
| Rotation.CreateDaysWeeks | fastapi_app/app/main.py:192-194 | over k successive `create_day` calls from cursor c in 1..7, the week list keeps its length and older weeks, and the current week changes only to cursor `min(c+k,7)` |
| Rotation.CreateDaysServe | fastapi_app/app/main.py:168-186 | over successive `create_day` calls from cursor c in 1..7, every call succeeds and call i serves slot `min(c+i,7)` with the week's podcast |
| Rotation.CreateDaysAppend | fastapi_app/app/main.py:189-190 | successive `create_day` calls append exactly the Days they return, in call order, and keep earlier Days |
| Rotation.FreshWeekCursor | fastapi_app/app/main.py:129-139 | after `create_week` and k `create_day` calls, the current week is the new week with cursor `min(1+k,7)`, which is 7 from the sixth call on |
| Rotation.FreshWeekServesSlotsInOrder | fastapi_app/app/main.py:168-194 | after `create_week`, the first seven `create_day` calls all succeed and serve slots 1..7 in order, and every later call serves slot 7 |
| Rotation.CappedCursorRepeatsLastSlot | fastapi_app/app/main.py:169-193 | with the cursor at 7 or above, `create_day` still succeeds, serves slot 7 and leaves the cursor at 7: a week is never exhausted |
| Rotation.Reverse | fastapi_app/app/main.py:149-150 | reading positions -1, -2, ... gives the list newest first, one entry per stored entry |
| Rotation.ListedCount | fastapi_app/app/main.py:149 | a listing returns `min(limit, len)` entries, none for a limit of 0 or less, never more than stored |
| Rotation.Recent | fastapi_app/app/main.py:147-154 | a listing returns `min(limit, len)` entries (none for a limit of 0 or less), and entry i is stored entry `len-1-i` |
| Rotation.ListRecent | fastapi_app/app/main.py:204-211 | the `for i in range(1, min(limit, len) + 1)` loop reading position `-i` computes exactly the newest-first listing |
| Rotation.GetWeeks | fastapi_app/app/main.py:142-154 | `get_weeks` lists the newest weeks, newest first, 10 of them by default |
| Rotation.GetDays | fastapi_app/app/main.py:199-211 | `get_days` lists the newest days, newest first, 50 of them by default |
| Rotation.RecentIsMonotone | fastapi_app/app/main.py:149-153 | a smaller limit gives a prefix of a larger limit's listing |
| Rotation.NewFft | fastapi_app/app/main.py:99-116 | the trigger returns nothing when no Day is stored, otherwise exactly the newest Day with only its timestamp replaced by now |
| Rotation.NewFftIgnoresPayload | fastapi_app/app/main.py:100-116 | the trigger's answer does not depend on the payload, its `limit` included |
| Rotation.TriggerServesNewestDay | fastapi_app/app/main.py:108-112 | after a successful `create_day`, the trigger returns that Day with a fresh timestamp, and `get_days` with limit 1 returns it |
| Api.HeaderValue | fastapi_app/app/main.py:79-80 | the header lookup finds nothing exactly when no header has the name (ASCII case aside); otherwise it finds the value of the first such header |
| Api.Authorized | fastapi_app/app/main.py:76-84 | a request passes exactly when a key is configured and the first `IFTTT-Service-Key` header carries that key |
| Api.ServiceKeyHeaderName | fastapi_app/app/main.py:79-80 | a header is the service-key header exactly when its name lowers to `ifttt-service-key`, that is, spells `IFTTT-Service-Key` in any mix of ASCII case |
| Api.ServiceKeyHeaderCaseVariants | fastapi_app/app/main.py:79-80 | the all-lower and all-upper spellings of the header name are the service-key header |
| Api.ServiceKeyHeaderNearMiss | fastapi_app/app/main.py:79-80 | `IFTTT_Service_Key`, with underscores, is not the service-key header |
| Api.Route | fastapi_app/app/main.py:88-211 | the status, setup, trigger and listing routes never change the store; setup returns the configured key as access token; `create_week` answers with the new current week; `create_day` changes the store exactly when it creates a Day |
| Api.Handle | fastapi_app/app/main.py:76-84 | a request without the right key gets the 401 `Unauthorized` rejection and changes nothing; with no key configured every request is rejected; the setup route's token equals the key the caller presented |
| Api.HandleKeepsCursorsInRange | fastapi_app/app/main.py:129-194 | no request takes a stored cursor out of 1..7 |
| Api.RunKeepsCursorsInRange | fastapi_app/app/main.py:129-194 | any run of requests keeps every stored cursor in 1..7 |
| Api.Settled | fastapi_app/app/main.py:192-194 | the settled weeks are all but the current one, a prefix of the week list |
| Api.CreateWeekExtends | fastapi_app/app/main.py:135-136 | `create_week` only appends a week: every earlier week and Day stays as it was |
| Api.CreateDayExtends | fastapi_app/app/main.py:189-194 | `create_day` only appends a Day and changes the current week's cursor: every week keeps its creation time, transcript and prompts |
| Api.HandleExtends | fastapi_app/app/main.py:137-194 | each request only appends, or changes the current week's cursor: settled weeks and days stay in place, and no week changes anything but its cursor |
| Api.RunExtends | fastapi_app/app/main.py:137-194 | over any run of requests nothing is removed or reordered, and every week ever stored keeps its creation time, transcript and prompts; only cursors change |
| Api.RunWithoutKey | fastapi_app/app/main.py:76-84 | a run of requests none of which carries the right key leaves the store unchanged and gets the rejection every time |
| Api.NoWeekScenario | fastapi_app/app/main.py:162-166 | with no week stored, `create_day` answers "No week found" and changes nothing |
| Api.FirstDayScenario | fastapi_app/app/main.py:129-194 | right after `create_week`, `create_day` serves slot 1 and the cursor becomes 2 |

## Left out

- Redis: the store is two sequences of already-parsed records. This leaves out the `llen`, `lindex`, `rpush` and `lset` calls and JSON (de)serialisation. The `if week:` / `if day:` skips of empty raw entries do not arise, and neither does the crash of `new_fft` on an empty raw entry.
- `triggerFields` values are `Any` in the source. The model's JSON values have integer numbers only, without floating point; the handler never reads the field.
- FastAPI and pydantic plumbing: routing and request validation are left out. A `TriggerPayload` missing a required field is rejected before the handler runs; the model takes payloads as already valid.
- Status codes: only the 401 of the middleware is modelled. The success routes and the `(payload, 400)` error pair are sent with the route's declared status, which the model does not state.
- `extract_latest_transcript` and `generate_fft`: these are calls to a language model and are not deterministic. Their results, a `Transcript` and a `WeeklyFFT`, are inputs of `create_week`. Their prompt texts are not modelled.
- `create_week` failure: in the source, a failed index fetch (`fastapi_app/app/fft.py:37-38`) or a failed language-model call (`fastapi_app/app/fft.py:57`, `fastapi_app/app/fft.py:95-97`) raises. The request then ends with a server error and nothing is stored. The model's `CreateWeekCall` always succeeds, because the language model's results are its inputs.
- Network fetches and HTML parsing: the index page and the transcript pages are not fetched. `ListTranscriptLinks` receives the page's anchors as (stripped text, href) pairs in document order. `TranscriptContent` receives either a request failure or the stripped paragraph texts. A failure other than a request exception propagates in the source and is not modelled.
- Clock and UUIDs: `datetime.now` and `uuid.uuid4` are inputs. ISO timestamps are plain strings and epoch seconds are integers.
- `Week.created_at` default: its default factory is evaluated once at import, but every caller passes the field, so it is not modelled.
- `Day.meta` is a dictionary in the source. It is modelled as a record of its two keys, `id` and `timestamp`.
- Header names are lowered ASCII only, as the server and the lookup do. The latin-1 decoding of raw header bytes is not modelled.
- Duplicate headers are resolved by first match. A request whose first `IFTTT-Service-Key` header is wrong is rejected even if a later one is right, as in the source.
- Logging and the `print` of a failed transcript fetch are not modelled.
- The cron script `cron/scripts/create/create.py` is not part of this model. It only sends HTTP requests with the key header.
- Concurrency: the model is sequential. The lost update between two concurrent `create_day` read-modify-write sequences is not modelled.
