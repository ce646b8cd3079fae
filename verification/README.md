# A model of the watched backend

The backend collects statistics, events and logs from agents over HTTP and keeps them in MySQL
tables. This project models the parts of it whose correctness spans many steps, and proves what they
promise over every run.

- **Rollup** (`Aggregates`, `Rollup`, `StatAggregator`, `Retention`, `HistoryTheorems`, `OnceTheorems`,
  `DayTier`, `DayLimits`, `StatTable`).
  A thread rolls raw samples (`d$`) into minute (`am$`), hour (`ah$`) and day rows (`ad$`), each tier
  by a per-series watermark, a closing delay and its own timer, and deletes old rows behind itself. A
  history of all samples ever stored is kept beside the tables. The invariant says that each table is
  a suffix of the direct group-by of that history; everything else follows from it. The unit of the day
  cutoff is a parameter: the queries count it in hours although they compare it with a day index.
- **Events** (`Events`, `EventTheorems`, `RessourceClient`). Threshold rules open and close events
  while data lines are parsed. The two loops are proved equal to a function of the line history.
- **HTTP** (`Text`, `QueryString`, `Sockets`, `HttpHeaders`, `HttpRequest`, `HttpResponse`,
  `Chunked`, `Truncation`). Writers and parsers of requests and responses, over a socket whose reads stop
  anywhere, messages that end too early, and the chunked decoder, against sections 3 and 4.1 of RFC 7230; the query-string scan, with percent
  decoding as in section 2.1 of RFC 3986. Sessions and connections (`Session`, `ConnectionPool`).
- **Failure detector** (`FailureDetector`, `AgentManager`). Backends share a history table; each writes
  heartbeats and marks the others. Their statements interleave freely.
- **Collect** (`Identities`, `LogBook`, `Collect`, `CollectTheorems`, `CollectRows`, `LogTheorems`,
  `Reports`, `StatusTheorems`, `AgentClient`). One collect stores new log lines, process and socket states
  and a history row per service.
- **Database pool** (`Sets`, `DbPool`, `DbPoolLimits`, `DbTools`). A counter shared by the threads.

What a specification function computes is also stated without it, in the columns, numbers and texts a
reader of the tables or the wire would see (`Retention`, `CollectRows`, `FreshAre`, `PathRoundTrip`,
`SuccessMeans` and others).

Each imperative part appears twice: as functions on values, about which the theorems speak, and as
classes or methods in the source's own form, proved equal to those functions or, for the database
pool, to be runs of the machine's steps. Times are integer milliseconds, values are reals. A table is a
map from its unique key, and one SQL statement is one step. An alert is an item appended to a sequence.

Where a promise fails, the model keeps the code's behaviour, shows an input, and proves the exact
condition:

- Among configurations that meet the conditions of the minute and hour theorems (`Sound`), every day
  row of every run is the aggregate of its day exactly when the day cutoff is counted in days and the
  day delay exceeds the hour delay by at least an hour (`DaysExactIff`). For every other configuration
  `LagNeeded` builds a run with timely samples that inserts a partial day, and no continuation repairs
  it (`MissesForever`). The queries count the cutoff in hours, so they fall under this, the default
  configuration included (`AsWrittenPartialDay`). Row by row, a day row is exact when no sample of the
  day lies in an hour that was open at insertion (`DayRowExactIff`).
- The server recovers every legible request exactly when no length field the caller adds contradicts the
  body (`RecoveredIff`).
- With guard and increment as separate steps, `pool_size + 1` bounds the pool's counter exactly when
  there is at most one thread, for every pool size (`BoundedIff`); with more, the counter reaches
  `pool_size` plus the number of threads (`MaximumReached`) and no more (`NeverExceeds`).
- The counter equals the number of objects holding a connection exactly when no grabbed connection was
  dropped on the way (`CounterExact`); such losses are reachable, up to `pool_size + 1` of them
  (`LossReached`).
- A caller asleep in grab can still get through exactly when the guard is false, or lost grabs alone
  do not fill the pool and some thread is not asleep (`GetsThroughIff`). Both ways to fail are
  reachable: through losses (`LossReached`), and without any, when every thread waits for one more
  object while the connections stay held (`DeadlockReached`).
- A boundary rather than a fault: an incremental tier and a `create table` at the last cutoff differ
  exactly when a sample lies in bucket 0, the first minute or hour of 1970, which only `create table`
  fills (`IncrementalEqualsBatch`, with `FirstMinuteDiffers`).

## Model

| member | source | states |
|---|---|---|
| Aggregates.CombineLaws | src/statAggregator.cpp:80 | merging two partial aggregates (sum, count, min, max) is associative and commutative with the empty one as unit, so the order in which rows are merged cannot matter |
| Aggregates.FoldUnion | src/statAggregator.cpp:80 | the aggregate of two disjoint tables is the merge of their aggregates |
| Aggregates.FoldMeaning | src/statAggregator.cpp:73 | the aggregate of raw samples has their exact count and their total, and its min and max are attained bounds of the values |
| Aggregates.TotalPick | src/statAggregator.cpp:73 | the total is the value at any key plus the total of the rest, so it does not depend on an order |
| Aggregates.MeanTimesCount | src/statAggregator.cpp:73-80 | the stored average times the stored count is the stored sum in every tier, so `sum(sum)/sum(cnt)` is the true mean |
| HistoryTheorems.AggregateMeans | src/statAggregator.cpp:73-80 | a row that aggregates a set of samples holds their number, their sum, their mean, and as min and max the smallest and the largest value among them |
| Rollup.IndexNests | src/statAggregator.cpp:55-60 | flooring a timestamp to the coarse unit is flooring its fine bucket: minutes nest in hours and hours in days |
| Rollup.FoldGroupBy | src/statAggregator.cpp:80 | regrouping any table into buckets and aggregating the bucket rows gives the aggregate of the table |
| Rollup.ViewCompose | src/statAggregator.cpp:96-98 | rolling up the closed fine buckets gives exactly the coarse group-by of the source, when the coarse cutoff does not pass the fine one |
| Rollup.InsertionFresh | src/statAggregator.cpp:96-98 | the watermark join never selects a bucket that the target table already holds |
| Rollup.InsertionStep | src/statAggregator.cpp:96-98 | over purged source and target tables, the watermark join inserts exactly the closed buckets between the last cutoff and this one, although purging may have reset watermarks to 0 |
| Rollup.BetweenExtends | src/statAggregator.cpp:96-98 | the group-by at the new cutoff is the one at the old cutoff plus the disjoint range of buckets in between |
| Rollup.ViewFrame | src/statAggregator.cpp:96-98 | a sample that lands at or past the cutoff changes no closed bucket |
| StatAggregator.CreateIsView | src/statAggregator.cpp:101-135 | `create table` and the incremental query agree on the group-by at one cutoff iff no source row lies in a closed bucket 0 |
| StatAggregator.InitialInv | src/statAggregator.cpp:100-150 | freshly created tables satisfy the invariant |
| StatAggregator.LowKeeps | src/statAggregator.cpp:165-173 | the low timer's insert and purge keep the invariant, and leave the minute tier at most two delays behind |
| StatAggregator.MedKeeps | src/statAggregator.cpp:174-182 | the same for the hour tier, given that the low timer was tested first in the tick |
| StatAggregator.HighKeeps | src/statAggregator.cpp:183-195 | the same for the day tier, with the cutoff counted in hours or in days |
| StatAggregator.ArriveKeeps | src/ressourceClient.cpp:184-193 | a sample at most `delay_am` minutes late, new or replacing another value, keeps the invariant |
| StatAggregator.RestartKeeps | src/statAggregator.cpp:31-54 | a restart, which keeps the tables and starts the timers at 0, keeps the invariant |
| StatAggregator.RunKeeps | src/statAggregator.cpp:162-196 | the invariant holds in every state of every run of arrivals, ticks and restarts under a monotone clock |
| Retention.TickLeaves | src/statAggregator.cpp:164-195 | what a tick leaves: a timer that is due deletes from the tables it purges exactly the rows before day `now/86400000 - retention` (from `ad$` after the insert), nothing where the retention is 0, keeps all others as they were, adds its rows to the next table and moves on by `delay_am` minutes, one hour or twelve; a timer that is not due changes nothing |
| Retention.NewMinuteIff | src/statAggregator.cpp:96 | base_am inserts a row for a series and minute iff `d$` holds a sample of it, the minute is more than `delay_am` minutes before the current one and not minute 0, and no minute row of the series is as late |
| Retention.NewHourIff | src/statAggregator.cpp:97 | the same for base_ah, hours, `am$` and `delay_ah` |
| Retention.NewDayIff | src/statAggregator.cpp:98 | the same for base_ad and days, with the cutoff in hours as written or in days, and only for a series with a day row or a minute row |
| Retention.CreatedIff | src/statAggregator.cpp:101-135 | the tables `create table` builds hold a row for exactly the buckets before the cutoff in which the table below has a row; the timers start at 0 |
| Retention.RestartRolls | src/statAggregator.cpp:31-54 | a restart leaves all four tables alone, and the next tick fires all three timers |
| Retention.NothingEarly | src/statAggregator.cpp:168-193 | in every run, what is gone from `d$`, `am$`, `ah$` or `ad$` is older than its retention, counted in whole days back from the clock, and where the retention is 0 nothing ever goes |
| Retention.NothingOverdue | src/statAggregator.cpp:165-194 | in every run, after a tick at `now` no table holds a row older than its retention counted from `now` less the period of its timer: `delay_am` minutes, one hour or twelve hours |
| HistoryTheorems.RowsExact | src/statAggregator.cpp:73-97 | end-to-end exactness: in every run, every stored minute and hour row is the direct aggregate of all samples ever stored in its minute or hour, whatever was purged |
| HistoryTheorems.ExactlyOnce | src/statAggregator.cpp:96-97 | in every run each (series, bucket) with a sample is inserted into `am$` and `ah$` exactly once when closed and not before, and a (series, day) at most once into `ad$` |
| HistoryTheorems.Staleness | src/statAggregator.cpp:165-181 | after any tick the minute tier trails by at most one extra delay and the hour tier by at most one extra hour, whichever timers fired |
| OnceTheorems.AtMostOnce | src/statAggregator.cpp:96-98 | in every run no (series, bucket) is inserted twice into `am$`, `ah$` or `ad$`, although purging an idle series resets its watermark; needs only the retention order and, where minutes are purged, samples at most a day late, not the delays of the coarser tiers |
| HistoryTheorems.LosslessPurgeRaw | src/statAggregator.cpp:168-171 | a sample deleted from `d$` lies in a closed minute that was inserted exactly once (not at all exactly if it is bucket 0) with a row aggregating all samples of the minute, this one included; the minute is gone as a whole |
| HistoryTheorems.LosslessPurgeMinutes | src/statAggregator.cpp:177-180 | a minute row deleted from `am$` lies in a closed hour that was inserted exactly once (not at all exactly if it is bucket 0) with a row aggregating all samples of the hour, those of the minute included; the hour is gone as a whole |
| HistoryTheorems.IncrementalEqualsBatch | src/statAggregator.cpp:96-118 | after any run the tiers equal one `create table` over the whole history at the last cutoff, as far back as rows are kept, iff no sample lies in a closed and kept bucket 0 |
| HistoryTheorems.FirstMinuteDiffers | src/statAggregator.cpp:96-101 | under the default delays a run with one sample in the first minute leaves an `am$` that differs from one `create table` at the same cutoff |
| HistoryTheorems.DefaultIsSound | sql/schema.sql:53-64 | the default delays and retentions meet the conditions of the minute and hour theorems, and of the day rows as written |
| DayTier.DefaultIsDaySound | sql/schema.sql:53-64 | they also meet those of the day theorems, with the cutoff counted in days |
| HistoryTheorems.GroupIsWindow | src/statAggregator.cpp:55-60 | the samples grouped into a bucket are those in its time window |
| DayTier.DayRowExactIff | src/statAggregator.cpp:98 | in every run a day row never counts more than the day's samples, and is the day's aggregate iff no sample of the day lies in an hour that was open when it was inserted |
| DayTier.DayRowsFrozen | src/statAggregator.cpp:98 | a day row once inserted is never changed by any continuation |
| DayTier.DaysExact | src/statAggregator.cpp:98 | with the cutoff counted in days and the lag bound, every day row is the aggregate of all samples ever stored in its day |
| DayTier.DaysComplete | src/statAggregator.cpp:98-194 | with ticks at most 12 hours apart the inserted day rows are exactly the direct day group-by up to a cutoff at most one day late |
| DayTier.FreezesOpenDay | src/statAggregator.cpp:98 | a cutoff past a day's index inserts that day as soon as one of its hours has a row, when the series has a watermark (from any minute row or earlier day row) and the day lies above it |
| DayLimits.HourUnitMisses | src/statAggregator.cpp:98 | with the cutoff counted in hours, as written, for all delays and retentions a run with timely samples inserts a partial day |
| DayLimits.LongDelayMisses | src/statAggregator.cpp:98 | the same with the cutoff counted in days, when the hour delay exceeds the day delay |
| DayLimits.EqualDelayMisses | src/statAggregator.cpp:174-194 | the same when the two delays are equal: the high timer fires at midnight between two hour steps |
| DayLimits.DaysExactIff | src/statAggregator.cpp:98-135 | among sound configurations, every day row of every run is its day's aggregate iff the cutoff is counted in days and the day delay exceeds the hour delay by an hour |
| DayLimits.MissesForever | src/statAggregator.cpp:98 | no continuation of a run repairs a partial day row |
| DayLimits.AsWrittenPartialDay | src/statAggregator.cpp:98-135 | under the default configuration a run of one night sample, a tick and a noon sample leaves, after every continuation, a day row that is not the day's aggregate |
| StatTable.AggregData.constructor | src/statAggregator.cpp:100-150 | the tables built for a new data type satisfy the invariant |
| StatTable.AggregData.Reopen | src/statAggregator.cpp:31-54 | the entry a restarted backend builds over existing tables is the restart step of the state they were left in |
| StatTable.AggregData.Arrive | src/ressourceClient.cpp:184-193 | the in-place upsert is the arrival step and keeps the invariant |
| StatTable.AggregData.RollMinutes | src/statAggregator.cpp:165-173 | the in-place low branch is the low step, whose rows and deletions NewMinuteIff and TickLeaves state in milliseconds |
| StatTable.AggregData.RollHours | src/statAggregator.cpp:174-182 | the in-place med branch is the med step (NewHourIff, TickLeaves) |
| StatTable.AggregData.RollDays | src/statAggregator.cpp:183-195 | the in-place high branch is the high step (NewDayIff, TickLeaves) |
| StatTable.AggregData.Tick | src/statAggregator.cpp:164-195 | one pass over a data type is the tick step, which keeps the invariant and leaves what TickLeaves says |
| StatTable.Aggregator.Pass | src/statAggregator.cpp:162-196 | the loop ticks every data type exactly once with one clock reading |
| Events.NeverBoth | src/ressourceClient.cpp:105-172 | a line never both opens and closes a rule, and does one of the two when it carries the property and the operator is known |
| Events.OpenDistinct | include/backend.h:30-32 | in every reachable state no two open events are equal |
| Events.OnLineTracks | src/ressourceClient.cpp:99-182 | one line of both loops, over all rules and open events, acts on each rule's rows and alerts as a one-rule function does, and keeps the invariant |
| Events.ParseTracks | src/ressourceClient.cpp:99-182 | the same over any sequence of lines |
| EventTheorems.EventStateIsHistory | src/ressourceClient.cpp:99-182 | a rule has an open event iff its comparison held on the last line carrying its property (or it was open before and none did); an unlisted one can only close |
| EventTheorems.OpenCompares | src/ressourceClient.cpp:104-172 | on numbers: the event of a listed rule is open iff the last value carried for its property is below, above or equal to the rule's value, as `<`, `>` or `=` says; with any other operator nothing changes |
| EventTheorems.RisingEdgesAre | src/ressourceClient.cpp:116-151 | the rising edges are exactly the lines that trigger a rule the history leaves closed, each once and in order |
| EventTheorems.RowsAreRisingEdges | src/ressourceClient.cpp:116-151 | the rows inserted for a rule are one per maximal run of triggering lines, with its start, last value and end, and the alerts are one per run with its first value |
| EventTheorems.IntervalsDisjoint | src/ressourceClient.cpp:116-181 | when timestamps increase, the stored intervals of every rule, rows from before the lines included, are disjoint and in order, and all but the last have ended |
| EventTheorems.RestartIsSeamless | src/ressourceClient.cpp:20-39 | a restart through `init` between any two lines leaves all later behaviour unchanged |
| RessourceClient.Client.constructor | src/ressourceClient.cpp:10-62 | `init` reloads exactly the rows without an end time |
| RessourceClient.Client.Find | src/ressourceClient.cpp:117-122 | the search loop ends with the largest id whose event equals the rule, or 0 |
| RessourceClient.Client.OpenEvents | src/ressourceClient.cpp:101-154 | the open loop, updating and inserting in place, is the open step of the machine |
| RessourceClient.Client.CloseEvents | src/ressourceClient.cpp:157-182 | the close loop is the close step, over the ids present at its start |
| RessourceClient.Client.Parse | src/ressourceClient.cpp:91-195 | the whole method is the machine's run over the lines, and the samples it leaves are loaded: each timestamp of a line has the row of its last line, column by column, every other keeps the row it had, and no other appears |
| RessourceClient.StoredLast | src/ressourceClient.cpp:184-193 | the row of a timestamp has exactly the columns of the definition, each with the value the last line of that timestamp carries for it, or 0 |
| RessourceClient.StoredElse | src/ressourceClient.cpp:184-193 | a timestamp that no line carries keeps its row, or stays without one |
| Text.StoullDecimal | sws/client_http.hpp:378 | `stoull` undoes decimal printing for every 64-bit number |
| Text.StoullReads | sws/client_http.hpp:378 | `stoull` of blanks, a sign, a printed number and whatever follows is that number, negated modulo 2^64 behind a minus sign; it throws iff the number does not fit |
| Text.DecimalIs | sws/client_http.hpp:181 | a number is printed digit by digit from the last one, without a leading 0 |
| Text.SameNameIff | sws/utility.hpp:23-28 | two header names are the same iff they differ in nothing but the case of ASCII letters |
| Text.Stol16Hex | sws/client_http.hpp:445 | `stol` in base 16 reads the hexadecimal digits up to the first other character, or those after an 0x prefix, and throws iff the number is too large |
| Text.HexRoundTrip | sws/client_http.hpp:445 | `stol` in base 16 undoes hexadecimal printing for every size |
| QueryString.PercentDecode | sws/utility.hpp:53-71 | the index loop computes the decoding function |
| QueryString.DecodeUndoesEncode | sws/utility.hpp:53-71 | decoding undoes every encoder that escapes `%`, `+`, `&` and `=` and may escape any other byte |
| QueryString.HexByteForms | sws/utility.hpp:58-62 | an escape of anything but two hexadecimal digits gives the one digit `strtol` can read, negated behind a minus sign, or a NUL |
| QueryString.ShortEscape | sws/utility.hpp:53-71 | a percent sign with fewer than two characters behind it stands for itself |
| QueryString.PieceForms | sws/utility.hpp:84-106 | a piece is a name up to its last `=` and a decoded value, or a name alone; an empty name gives nothing |
| QueryString.SplitJoins | sws/utility.hpp:84-97 | the pieces are what stands between the ampersands |
| QueryString.ParseQueryString | sws/utility.hpp:75-109 | the one-pass scan with sentinel positions and `size_t` wrap-around equals splitting at `&`, cutting at the last `=`, dropping empty names and decoding the values, for all strings |
| QueryString.QueryRoundTrip | sws/utility.hpp:75-109 | parsing the query string written for any parameters by any such encoder recovers them |
| Sockets.Socket.ReadUntil | sws/client_http.hpp:365-372 | a delimited read ends past the first delimiter and may leave any number of further bytes in the buffer |
| Sockets.Socket.ReadExactly | sws/client_http.hpp:381-389 | an exact read takes that many bytes or fails |
| HttpHeaders.ReadFields | sws/client_http.hpp:333-345 | the line loop ends, and yields the fields up to the first line without a colon and the rest of the buffer |
| HttpHeaders.BlankStops | sws/client_http.hpp:335-345 | a buffer that holds a blank line ends the line loop |
| HttpHeaders.FieldsRoundTrip | sws/server_http.hpp:385-397 | written fields and a blank line read back as the same fields, in order, and the body |
| HttpHeaders.FieldForms | sws/client_http.hpp:335-342 | one field line: the name up to the first colon, one space skipped, the last character dropped, and no field where the line ends before its value |
| HttpHeaders.FieldsLine | sws/client_http.hpp:333-345 | a line with a colon adds its field and goes on; the first line without one, blank or not, ends the header |
| HttpHeaders.HeadEnd | sws/client_http.hpp:365-372 | the first blank line of a written head is the one its writer put at the end |
| HttpRequest.WriteRequest | sws/client_http.hpp:278-292 | the stream writes produce the request line, Host, the fields, Content-Length for a non-empty body, the blank line and the body; PathRoundTrip says what of it arrives |
| HttpRequest.ReadRequestAndContent | sws/server_http.hpp:306-364 | the server's reads make of a stream one of the outcomes its head allows, wherever they stop |
| HttpRequest.HeadReads | sws/server_http.hpp:366-405 | parsing a written head recovers method, target, version 1.1 and all fields |
| HttpRequest.RejectedIff | sws/server_http.hpp:366-384 | the server rejects a stream iff a head has arrived whose first line is not a method, a target and `HTTP/`, with one space between them |
| HttpRequest.RequestRoundTrip | sws/server_http.hpp:314-405 | whatever the read boundaries, the server recovers the method, the target of the request line, version, header with Host and Content-Length, and the body |
| HttpRequest.PathRoundTrip | sws/client_http.hpp:278-292 | for what the client writes for a path: the server has that path (`/` for an empty one; through a plain-HTTP proxy behind `http://`, host, `:` and the port's digits), and as header Host, the caller's fields and, for a body only, its length |
| HttpRequest.RecoveredIff | sws/server_http.hpp:314-360 | a legible request is recovered for all following bytes and read boundaries iff every length field the caller adds gives the body's size |
| Truncation.RequestCut | sws/server_http.hpp:306-364 | every proper prefix of a written request ends in an I/O error at the server |
| Truncation.RequestLengthBad | sws/server_http.hpp:329-339 | a request whose length fields are no numbers is refused |
| HttpResponse.WriteHeader | sws/server_http.hpp:60-71 | the loop with its local flag writes all fields, and a Content-Length iff the size is positive and none was among them |
| HttpResponse.LengthAdded | sws/server_http.hpp:60-71 | a Content-Length with the size is added iff there is a body and no field has that name, in whatever case |
| HttpResponse.WriteResponse | sws/server_http.hpp:82-93 | the status line, that header and the body |
| HttpResponse.ParseResponseHeader | sws/client_http.hpp:323-347 | the client's parser terminates on every buffer that holds a blank line and computes the parsing function, index wrap-around included |
| HttpResponse.StatusForms | sws/client_http.hpp:323-331 | the status line: version behind five characters up to the first space, status behind it, and what an early or a missing space does |
| HttpResponse.NoStatus | sws/client_http.hpp:323-347 | without a space in its first line a response has no version, status or fields, and what follows the line stays in the buffer |
| HttpResponse.ResponseRoundTrip | sws/client_http.hpp:323-347 | the client recovers version, status and header multimap as written, with a Content-Length when the body is not empty |
| HttpResponse.FindField | sws/client_http.hpp:376-400 | the lookup finds a field of that name, in any case, iff there is one |
| HttpResponse.ReadResponse | sws/client_http.hpp:363-433 | the client's reads make of a stream one of the results its framing (length, chunks, end of stream, none) allows, wherever they stop; a read to the end succeeds iff the stream ended properly, and a chunked body gives what it decodes to, malformed or not |
| HttpResponse.BodyRoundTrip | sws/client_http.hpp:376-395 | whatever the read boundaries, the client receives the server's head and body, also an empty body that no field announces |
| HttpResponse.LessIff | sws/client_http.hpp:400 | versions are compared character by character: the first difference or the end decides |
| Truncation.EndDelimits | sws/client_http.hpp:400-417 | a body that only the end delimits (version 1.0, or a Session field that says close) is received whole if the connection ended in order, wherever the reads stop, and fails otherwise |
| Truncation.ResponseCut | sws/client_http.hpp:363-395 | every proper prefix of a response with a length, or of one without a body, fails |
| Truncation.LengthThrows | sws/client_http.hpp:376-378 | a response whose length fields are no numbers throws |
| HttpResponse.ChunkedRoundTrip | sws/client_http.hpp:396-399 | a response in chunks: whatever the read and chunk boundaries, the client receives the head and the concatenated chunk data |
| Truncation.ChunkedCut | sws/client_http.hpp:435-493 | every proper prefix of a response in chunks fails |
| Truncation.SizeThrows | sws/client_http.hpp:441-445 | a chunk whose size line starts with no number throws |
| Chunked.DecodeEncode | sws/client_http.hpp:435-493 | decoding recovers the concatenated data of every body encoded as in section 4.1 of RFC 7230 without trailers, and the bytes after it |
| Chunked.CutBreaks | sws/client_http.hpp:435-493 | no proper prefix of an encoded body decodes |
| Chunked.EncodedIsRegular | sws/client_http.hpp:442-447 | in such a body every size line ends at the CRLF searched for |
| Chunked.ReadChunked | sws/client_http.hpp:435-493 | for every stream and every split into reads the decoder terminates with what the stream decodes to, an error or an exception included; with regular size lines it never asks for more than the bytes the chunk still misses |
| Session.StepKeeps | sws/client_http.hpp:349-493 | every completion of the pending operation keeps the session invariant |
| Session.SessionSafety | sws/client_https.hpp:50-130 | over HTTP or HTTPS, with or without proxy: at most one callback, fired exactly when nothing is pending and exactly when `in_use` is cleared; at most one reconnect; at most two writes, both of the same request |
| Session.ChannelOrder | sws/client_https.hpp:50-130 | at every point of a session the request is written only on a ready channel (over HTTPS after the handshake, through a proxy after it agreed); a write that succeeded is followed by the header read; the first failed header read reconnects from a closed socket, any other failure ends in a callback with an error, except the orderly end of a body that only the end delimits; and the callback leaves the socket open iff the last operation succeeded |
| Session.OperationsInOrder | sws/client_https.hpp:50-130 | while everything succeeds a session resolves, connects, over HTTPS asks the proxy if there is one and shakes hands, then writes the request and reads the header, in this order; on an open connection it starts with the write |
| Session.SuccessMeans | sws/client_http.hpp:349-493 | the callback reports success iff some write succeeded and was answered: the header was read right after it, and after the header exactly the body it announced: the missing bytes of a length, chunk after chunk up to the last one with every missing byte, everything up to the end, or nothing |
| Session.SessionProgress | sws/client_http.hpp:349-493 | every session ends within 16 steps plus two per chunk, and until the callback an operation is pending that can complete |
| Session.ClientSession.Complete | sws/client_http.hpp:349-550 | the handlers, changing flags and socket in place, perform the machine's step, of which ChannelOrder and SuccessMeans speak |
| Session.ClientSession.constructor | sws/client_http.hpp:162-185 | a request starts with its connection in use and one operation pending |
| ConnectionPool.AcquiredMeans | sws/client_http.hpp:254-274 | right after `get_connection` every connection left is in use, the busy ones are all kept in order, the one handed out was the first idle one or is new, and at most one was created |
| ConnectionPool.Pool.Scan | sws/client_http.hpp:255-266 | the loop that erases while it walks picks the first idle connection and keeps exactly the busy ones and it |
| ConnectionPool.Pool.GetConnection | sws/client_http.hpp:254-274 | the method computes that result, clears `reconnecting`, sets `in_use` and touches no other connection |
| ConnectionPool.PoolExclusive | sws/client_http.hpp:169-177 | over all interleavings of requests and completions no two outstanding sessions hold the same connection, and a connection is in use exactly while held |
| FailureDetector.StaleIsLast | src/agentManager.cpp:84 | a backend is reported iff it has rows and its last one is older than the limit |
| FailureDetector.ScanIff | src/agentManager.cpp:84-87 | a scan marks a backend as failed, 300000 ms before its clock's reading, iff the backend has a last row and it is more than 600000 ms old |
| FailureDetector.ScanSafety | src/agentManager.cpp:84-87 | an insert-select meets no existing key, and each row it adds lies more than 300000 ms after every earlier row of that backend |
| FailureDetector.ApplyKeys | src/agentManager.cpp:78-87 | no statement removes a row; only a beat rewrites one, its own |
| FailureDetector.RunSafety | sql/schema.sql:312-319 | over all interleavings of statements, with any clocks, the unique key is never violated and failed rows keep that distance |
| FailureDetector.BeatingNeverFailed | src/agentManager.cpp:76-87 | a backend whose heartbeat gap plus clock skew stays within 600000 ms is never marked failed, by itself or by others |
| FailureDetector.SilentIsMarked | src/agentManager.cpp:84-87 | while the peers' scans are at most P ms apart, each row of a silent backend is followed by another within 300000+P ms, except the last, which is at most 600000 ms behind the latest scan |
| AgentManager.UnknownOnce | src/agentManager.cpp:63-68 | the agents to start are exactly the listed ones not running, each once |
| AgentManager.Manager.UpdateAgents | src/agentManager.cpp:50-92 | the method starts exactly those agents and applies the two statements to the shared table, or does nothing without a connection |
| Identities.HaveKeeps | src/dbTools.cpp:206-264 | get-or-create returns a positive id, distinct for distinct names and never changed later |
| LogBook.EntriesAdvance | src/agentClient.cpp:261-274 | the log loop stores exactly the fresh lines (FreshAre says which), each with its time, text and level id; the alert text is exactly their texts and `maxlvl` the largest of their levels |
| LogBook.FreshAre | src/dbTools.cpp:61-77 | the fresh lines are, in order, those that agree with no stored row and with no earlier line of the loop in source, date and line number, each under exactly its service, source, date and line number and with its own time, level and text |
| LogBook.FoldedSame | src/dbTools.cpp:324-342 | level names share an id iff they are the same up to the case of letters |
| LogBook.LinesRead | src/agentClient.cpp:263 | the alert text can be read back line by line |
| LogBook.TopPositive | src/agentClient.cpp:275 | testing `maxlvl>0` is the same as testing whether a new line was stored |
| LogBook.EntriesKnown | src/dbTools.cpp:61-77 | there is such a line iff some key of the answer is not stored |
| Collect.MissingSplit | src/agentClient.cpp:339-345 | one insert-select per host inserts what a single one for all hosts would |
| CollectTheorems.ProcessesCounted | src/agentClient.cpp:281-299 | ok counts the processes reported ok, ok+failed grows by the number of processes, and no other service's rows change |
| CollectTheorems.ServiceStep | src/agentClient.cpp:248-336 | one pass of the service loop names host and service, changes only that service's rows and stores its counts |
| CollectTheorems.CollectPartitions | src/agentClient.cpp:248-345 | every service of every host seen gets exactly one history row at the collect's time: ok+failed equal to its reported components, or missing equal to the parts stored for it; every older row stays, and each reported service has its type |
| CollectRows.RowsInNumbers | src/agentClient.cpp:326-345 | the rows of one collect in numbers: an answering service has the numbers of its components with and without status "ok", a silent one on the same host the number of process and socket rows the tables held for it |
| CollectRows.PassRow | src/agentClient.cpp:329-335 | one pass writes one history row with those two numbers, keeps the missing count of an earlier row of the same time, and no other row changes |
| CollectRows.CoveredIff | src/agentClient.cpp:340 | the insert-select covers a service iff it is on one of the hosts and has no row at the collect's time or later |
| LogTheorems.LoggedTells | src/agentClient.cpp:275-276 | a service sends one log alert holding exactly its new lines, or none |
| LogTheorems.EachLineOnce | src/agentClient.cpp:261-276 | over any sequence of overlapping collects every log key is stored once, keeps its text, and its text is alerted exactly once; EveryLineKept ties the keys to the lines |
| LogTheorems.EveryLineKept | src/agentClient.cpp:261-276 | line by line over one answer: afterwards each line has a row under exactly its service, source, date and line number; one that agrees with no stored row and no earlier line of the answer is stored with its own time, text and level, and is among the alerted lines |
| LogTheorems.NewsOfAnswer | src/agentClient.cpp:261-276 | nothing else is: all stored and alerted lines are lines of the answer |
| LogTheorems.IdsDistinct | src/dbTools.cpp:228-262 | services of different hosts or names have different ids |
| LogTheorems.RepeatIsSilent | src/agentClient.cpp:261-276 | collecting any part of an answer again stores and alerts no line |
| StatusTheorems.ProcessRowIs | src/agentClient.cpp:279-299 | the stored row of a process is what the last report of its name says, with pid 0 when it failed |
| StatusTheorems.SocketRowIs | src/agentClient.cpp:302-315 | the stored row of a socket is what the last report of its name says |
| StatusTheorems.PassProcess | src/agentClient.cpp:279-299 | one pass over a service stores, under its id, the last report of every process name |
| StatusTheorems.PassSocket | src/agentClient.cpp:302-315 | the same for its sockets |
| StatusTheorems.PassElse | src/agentClient.cpp:279-315 | the rows of names that are not reported stay as they were |
| StatusTheorems.ServiceAlertIff | src/agentClient.cpp:289-319 | a service alert, with the number of failed components, goes out iff some component failed in another way than it was last known to, from this answer or the tables |
| AgentClient.Client.ReadLogs | src/agentClient.cpp:257-274 | the log loop computes the reading function in place, of which EntriesAdvance and FreshAre speak |
| AgentClient.Client.ReadProcesses | src/agentClient.cpp:281-299 | the process loop computes its checking function in place |
| AgentClient.Client.ReadSockets | src/agentClient.cpp:304-315 | the socket loop continues the counters |
| AgentClient.Client.ReadService | src/agentClient.cpp:248-336 | one pass of the service loop is the collect step for that service |
| AgentClient.Client.InsertMissing | src/agentClient.cpp:339-345 | the loop over the hosts adds exactly the rows of the missing services |
| AgentClient.Client.Collect | src/agentClient.cpp:238-345 | the method computes the collect function; without a connection only `since` advances, without an answer nothing changes |
| DbPool.CounterExact | include/backend.h:120-131 | over all interleavings, with no thread between increment and end of call, `usedCount` is the number of holding objects plus the lost grabs, so it is exact iff none was lost |
| DbPool.AtomicNeverExceeds | include/backend.h:122-124 | with guard and increment as one step the counter never exceeds `poolSize + 1` |
| DbPool.NeverExceeds | include/backend.h:122-124 | with separate steps it never exceeds `poolSize` plus the number of threads |
| DbPoolLimits.MaximumReached | include/backend.h:122-124 | for every pool size and any threads some interleaving attains that bound |
| DbPoolLimits.BoundedIff | include/backend.h:122-124 | `poolSize + 1` bounds the counter over all interleavings of the separate steps iff there is at most one thread |
| DbPoolLimits.LossReached | include/backend.h:120-126 | for every pool size a run loses any number of grabs up to `poolSize + 1`; then `usedCount` counts connections no object holds, and after the last nobody gets through |
| DbPoolLimits.GuardOpensIff | include/backend.h:122-130 | from any state of the invariant the guard can become false iff it is false, or the losses do not exceed `poolSize` and some thread is not asleep in grab |
| DbPoolLimits.GetsThroughIff | include/backend.h:122-130 | a given thread asleep in grab gets past the guard in some continuation under exactly the same condition |
| DbPoolLimits.DeadlockReached | src/dbTools.cpp:13-18 | for every pool size and any threads a run without a loss ends with every thread asleep, in a state no enabled event changes |
| DbTools.Tools.Grab | src/dbTools.cpp:13-18 | one undisturbed call is exactly the machine's run of its steps (ask, test, count, take or lose) on the pool and its objects, and its result tells whether the object holds a connection |
| DbTools.Tools.Wake | include/backend.h:120-126 | each time a sleeping thread tests the guard, it goes back to sleep or performs the rest of that run |
| DbTools.Tools.Release | src/dbTools.cpp:20-25 | the call is exactly the machine's return step |

## Left out

- MySQL itself: statements are atomic and succeed; SQL text, column types, NULL columns, indexes, foreign keys and the error-swallowing execution macro are not modelled.
- Rounding: timestamps are integers and values reals, so `asFloat` and `double(20,4)` lose nothing here.
- One value column per statistics table; the query generator repeats the same aggregate for each column.
- Delays that change at run time: a configuration is constant, although the timer reads the refreshed delay and the query text keeps the first one (src/statAggregator.cpp:35-45).
- One clock per tick: the queries read the server's clock and the timers the backend's; the model uses one reading for both.
- StatAggregator.RunKeeps: assumes samples at most `delay_am` minutes late and positive buckets, because a later sample falls behind a closed bucket and bucket 0 is never above a watermark of 0.
- DayTier.DaysComplete: covers the cutoff counted in days; with the cutoff counted in hours the day rows are partial, as DayLimits.HourUnitMisses shows.
- The `all$` view (src/statAggregator.cpp:61): its strict comparisons make the tiers overlap.
- Events: the ids of event rows are renumbered in insertion order; erasing inside the close loop is taken as iteration over the ids present at its start.
- The close update binds a parameter called `name` where the query names it `end` (src/ressourceClient.cpp:174-176); it is taken to set `end_time`.
- Sockets, TLS, certificates, name resolution and timers: each is the outcome of a step. Bytes that a failed first read left in the response buffer are taken to be none.
- HttpResponse.ChunkedRoundTrip: bytes that follow the body on the connection and were read along stay in front of the data, as the code leaves them; without such bytes the content is exactly the data.
- HttpHeaders.ReadFields: requires a colon-free line ahead, which the blank line in the buffer guarantees; without one the loop over `getline` would not end.
- Chunked.ReadChunked: trailers are not decoded; an empty size line, and a size whose sum with 2 overflows, have no defined behaviour in the code and are taken to throw.
- The header multimap is a sequence in insertion order; a lookup among equal names may find any of them.
- Request dispatch, keep-alive and upgrades of the server, and the synchronous request wrappers.
- FailureDetector.BeatingNeverFailed: clock readings are compared through a skew bound on the run; clock adjustment beyond it is not modelled.
- What an agent leaves out of an answer because of `since`: the agent is not part of this model, so lines skipped when the pool gave no connection are not accounted for.
- Log lines are keyed by exact strings; MySQL's collation may treat more strings as equal.
- DbPool.NeverExceeds: the increment, and the whole of release, are single steps; what `safe_grab` does inside is not part of this model beyond how often it calls `grab`.
- The alerter, plugins, Lua bindings, configuration, logging, status code table, permission views and web pages.
