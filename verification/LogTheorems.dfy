/** Over any sequence of collects, each log line is stored once and its text alerted once. */
module LogTheorems {
  import opened Identities
  import opened LogBook
  import opened Collect
  import opened CollectTheorems

  /** The lines one service adds. */
  function NewsOf(s: State, v: Service): seq<Item> {
    Fresh(s.db.book.rows.Keys, ServId(Named(s, v).db, v), v.entries)
  }

  function News(s: State, vs: seq<Service>, now: int): seq<Item> {
    if vs == [] then []
    else News(s, vs[..|vs| - 1], now) + NewsOf(CollectServices(s, vs[..|vs| - 1], now), vs[|vs| - 1])
  }

  /** The texts of all log alerts, in order. */
  function LogText(alerts: seq<Alert>): string {
    if alerts == [] then ""
    else
      var a := alerts[|alerts| - 1];
      LogText(alerts[..|alerts| - 1]) + if a.LogAlert? then a.text else ""
  }

  /** From `s` to `s'` exactly the lines `items` were stored and alerted. */
  ghost predicate Tells(s: State, items: seq<Item>, s': State) {
    && Grows(s.db.book, items, s'.db.book)
    && LogText(s'.alerts) == LogText(s.alerts) + Lines(items)
  }

  lemma TellsNothing(s: State, s': State)
    requires s'.db.book == s.db.book && LogText(s'.alerts) == LogText(s.alerts)
    ensures Tells(s, [], s')
  {}

  lemma TellsCompose(a: State, m: seq<Item>, b: State, n: seq<Item>, c: State)
    requires Tells(a, m, b) && Tells(b, n, c)
    ensures Tells(a, m + n, c)
  {
    hide Grows, Lines, LogText;
    GrowsCompose(a.db.book, m, b.db.book, n, c.db.book);
    LinesConcat(m, n);
    assert LogText(a.alerts) + Lines(m) + Lines(n) == LogText(a.alerts) + (Lines(m) + Lines(n));
  }

  lemma LogTextStep(alerts: seq<Alert>, a: Alert)
    ensures LogText(alerts + [a]) == LogText(alerts) + if a.LogAlert? then a.text else ""
  {
    assert (alerts + [a])[..|alerts|] == alerts;
  }

  /** One service sends one log alert, holding exactly its new lines, or none when it has none. */
  lemma LoggedTells(s: State, v: Service) returns (level: nat)
    requires NamesValid(s.db) && IsNamed(s.db, v)
    ensures var items := Fresh(s.db.book.rows.Keys, ServId(s.db, v), v.entries);
            var s' := Logged(s, v);
            && Grows(s.db.book, items, s'.db.book)
            && (items == [] ==> s'.alerts == s.alerts)
            && (items != [] ==>
                  && IsTop(level, 0, items, s'.db.book)
                  && s'.alerts == s.alerts + [LogAlert(HostId(s.db, v), ServId(s.db, v), level, Lines(items))])
  {
    hide Valid, Fresh, ReadEntries, Grows, Lines, IsTop;
    var r := Reading(s.db.book, "", 0);
    EntriesAdvance(r, ServId(s.db, v), v.entries);
    TopPositive(r, Fresh(s.db.book.rows.Keys, ServId(s.db, v), v.entries), ReadEntries(r, ServId(s.db, v), v.entries));
    assert forall t: string :: "" + t == t;
    level := ReadEntries(r, ServId(s.db, v), v.entries).level;
  }

  lemma NamedQuiet(s: State, v: Service)
    ensures Named(s, v).db.book == s.db.book && Named(s, v).alerts == s.alerts
  {}

  lemma LoggedText(s: State, v: Service)
    requires NamesValid(s.db) && IsNamed(s.db, v)
    ensures Tells(s, Fresh(s.db.book.rows.Keys, ServId(s.db, v), v.entries), Logged(s, v))
  {
    var level := LoggedTells(s, v);
    hide Grows, Fresh, ReadEntries, LogText, Logged, Valid;
    var items := Fresh(s.db.book.rows.Keys, ServId(s.db, v), v.entries);
    if items != [] {
      LogTextStep(s.alerts, LogAlert(HostId(s.db, v), ServId(s.db, v), level, Lines(items)));
    }
  }

  lemma MeasuredQuiet(s: State, v: Service, now: int)
    requires IsNamed(s.db, v) && v.kind in s.db.kinds.of
    ensures Tells(s, [], Measured(s, v, now))
  {
    hide CheckProcesses, CheckSockets, Stored;
    var s' := Measured(s, v, now);
    if s'.alerts != s.alerts { LogTextStep(s.alerts, s'.alerts[|s.alerts|]); }
  }

  lemma ServiceTells(s: State, v: Service, now: int)
    requires NamesValid(s.db)
    ensures Tells(s, NewsOf(s, v), CollectService(s, v, now))
  {
    NamedKeeps(s, v);
    NamedQuiet(s, v);
    var s1 := Named(s, v);
    var s2 := Logged(s1, v);
    LoggedText(s1, v);
    MeasuredQuiet(s2, v, now);
    hide Tells, Fresh, Measured, Logged, Named, Valid, Extends;
    TellsCompose(s1, NewsOf(s, v), s2, [], CollectService(s, v, now));
    assert NewsOf(s, v) + [] == NewsOf(s, v);
    TellsFrom(s1, s, NewsOf(s, v), CollectService(s, v, now));
  }

  lemma TellsFrom(a: State, b: State, items: seq<Item>, s': State)
    requires Tells(a, items, s') && a.db.book == b.db.book && a.alerts == b.alerts
    ensures Tells(b, items, s')
  {}

  lemma ServiceValid(s: State, v: Service, now: int)
    requires NamesValid(s.db)
    ensures NamesValid(CollectService(s, v, now).db)
  {
    hide CollectService, NamesValid;
    ServiceStep(s, v, now);
  }

  lemma {:induction false} ServicesTell(s: State, vs: seq<Service>, now: int)
    requires NamesValid(s.db)
    ensures NamesValid(CollectServices(s, vs, now).db) && Tells(s, News(s, vs, now), CollectServices(s, vs, now))
  {
    if vs == [] {
      hide Grows, LogText;
      TellsNothing(s, s);
    } else {
      hide Tells, NamesValid, CollectService, NewsOf;
      var n := |vs| - 1;
      var m := CollectServices(s, vs[..n], now);
      ServicesTell(s, vs[..n], now);
      ServiceTells(m, vs[n], now);
      ServiceValid(m, vs[n], now);
      TellsCompose(s, News(s, vs[..n], now), m, NewsOf(m, vs[n]), CollectService(m, vs[n], now));
    }
  }

  // ---- Sequences of collects ----

  datatype Call = Call(services: seq<Service>, now: int)

  function CollectAll(db: Db, alerts: seq<Alert>, calls: seq<Call>): State {
    if calls == [] then State(db, alerts, {})
    else
      var s := CollectAll(db, alerts, calls[..|calls| - 1]);
      Collected(s.db, s.alerts, calls[|calls| - 1].services, calls[|calls| - 1].now)
  }

  function AllNews(db: Db, alerts: seq<Alert>, calls: seq<Call>): seq<Item> {
    if calls == [] then []
    else
      var n := |calls| - 1;
      var s := CollectAll(db, alerts, calls[..n]);
      AllNews(db, alerts, calls[..n]) + News(State(s.db, s.alerts, {}), calls[n].services, calls[n].now)
  }

  lemma CollectTells(db: Db, alerts: seq<Alert>, vs: seq<Service>, now: int)
    requires NamesValid(db)
    ensures var s' := Collected(db, alerts, vs, now);
            NamesValid(s'.db) && Tells(State(db, alerts, {}), News(State(db, alerts, {}), vs, now), s')
  {
    hide Valid, Missing, Grows, LogText, CollectServices, News;
    ServicesTell(State(db, alerts, {}), vs, now);
  }

  /** Over any sequence of collects, however their answers overlap: the stored lines grow by the
      lines `AllNews`, no two of which share a key and none of which was stored before; each is
      stored with its text, no stored line changes, and the texts of all log alerts sent are exactly
      those lines, each once. */
  lemma {:induction false} EachLineOnce(db: Db, alerts: seq<Alert>, calls: seq<Call>)
    requires NamesValid(db)
    ensures NamesValid(CollectAll(db, alerts, calls).db)
    ensures Tells(State(db, alerts, {}), AllNews(db, alerts, calls), CollectAll(db, alerts, calls))
  {
    var s0 := State(db, alerts, {});
    if calls == [] {
      hide Grows, LogText;
      TellsNothing(s0, s0);
    } else {
      hide Tells, NamesValid, Collected, News;
      var n := |calls| - 1;
      var s := CollectAll(db, alerts, calls[..n]);
      EachLineOnce(db, alerts, calls[..n]);
      CollectTells(s.db, s.alerts, calls[n].services, calls[n].now);
      var m := State(s.db, s.alerts, {});
      TellsTo(s0, AllNews(db, alerts, calls[..n]), s, m);
      TellsCompose(s0, AllNews(db, alerts, calls[..n]), m, News(m, calls[n].services, calls[n].now),
          CollectAll(db, alerts, calls));
    }
  }

  lemma TellsTo(a: State, items: seq<Item>, b: State, c: State)
    requires Tells(a, items, b) && b.db == c.db && b.alerts == c.alerts
    ensures Tells(a, items, c)
  {}

  // ---- A repeated answer ----

  /** Every line of the service is stored. */
  predicate EntriesStored(db: Db, v: Service) {
    IsNamed(db, v) && forall i | 0 <= i < |v.entries| :: KeyOf(ServId(db, v), v.entries[i]) in db.book.rows
  }

  predicate AllStored(db: Db, vs: seq<Service>) { forall i | 0 <= i < |vs| :: EntriesStored(db, vs[i]) }

  lemma EntriesKept(s: State, items: seq<Item>, s': State, v: Service)
    requires EntriesStored(s.db, v) && Tells(s, items, s')
    requires Extends(s.db.hosts, s'.db.hosts) && Extends(s.db.services, s'.db.services)
    ensures EntriesStored(s'.db, v)
  {
    hide LogText, Lines;
    assert ServId(s'.db, v) == ServId(s.db, v);
  }

  lemma ServiceStores(s: State, v: Service, now: int)
    requires NamesValid(s.db)
    ensures EntriesStored(CollectService(s, v, now).db, v)
  {
    hide CollectService, OthersKept, Stored, LogText, Lines;
    ServiceTells(s, v, now);
    ServiceStep(s, v, now);
    CollectedId(s, v, now);
    EntriesKnown(s.db.book.rows.Keys, ServId(Named(s, v).db, v), v.entries);
  }

  lemma CollectedId(s: State, v: Service, now: int)
    ensures CollectService(s, v, now).db.hosts == Named(s, v).db.hosts
    ensures CollectService(s, v, now).db.services == Named(s, v).db.services
  {}

  lemma {:induction false} ServicesStore(s: State, vs: seq<Service>, now: int)
    requires NamesValid(s.db)
    ensures AllStored(CollectServices(s, vs, now).db, vs)
  {
    if vs != [] {
      var n := |vs| - 1;
      var m := CollectServices(s, vs[..n], now);
      ServicesStore(s, vs[..n], now);
      ServicesTell(s, vs[..n], now);
      StoresStep(m, vs, now);
    }
  }

  lemma StoresStep(m: State, vs: seq<Service>, now: int)
    requires vs != [] && NamesValid(m.db) && AllStored(m.db, vs[..|vs| - 1])
    ensures AllStored(CollectService(m, vs[|vs| - 1], now).db, vs)
  {
    hide EntriesStored, CollectService, Tells, Extends, OthersKept;
    var n := |vs| - 1;
    var s' := CollectService(m, vs[n], now);
    ServiceStores(m, vs[n], now);
    ServiceTells(m, vs[n], now);
    ServiceStep(m, vs[n], now);
    forall i | 0 <= i < n ensures EntriesStored(s'.db, vs[i]) {
      assert vs[..n][i] == vs[i];
      EntriesKept(m, NewsOf(m, vs[n]), s', vs[i]);
    }
  }

  lemma NothingNew(s: State, v: Service)
    requires NamesValid(s.db) && EntriesStored(s.db, v)
    ensures NewsOf(s, v) == []
  {
    NamedKeeps(s, v);
    assert ServId(Named(s, v).db, v) == ServId(s.db, v);
    EntriesKnown(s.db.book.rows.Keys, ServId(s.db, v), v.entries);
  }

  lemma FirstsStored(db: Db, vs: seq<Service>)
    requires vs != [] && AllStored(db, vs)
    ensures AllStored(db, vs[..|vs| - 1]) && EntriesStored(db, vs[|vs| - 1])
  {
    hide EntriesStored;
    var n := |vs| - 1;
    assert EntriesStored(db, vs[n]);
    forall i | 0 <= i < n ensures EntriesStored(db, vs[..n][i]) { assert vs[..n][i] == vs[i]; }
  }

  /** An answer all of whose lines are stored, whatever else it says, brings no news. */
  lemma {:induction false} StoredIsNoNews(s: State, vs: seq<Service>, now: int)
    requires NamesValid(s.db) && AllStored(s.db, vs)
    ensures News(s, vs, now) == []
  {
    if vs != [] {
      hide Tells, Extends, EntriesStored, AllStored, CollectService, NewsOf, NamesValid;
      var n := |vs| - 1;
      var m := CollectServices(s, vs[..n], now);
      FirstsStored(s.db, vs);
      StoredIsNoNews(s, vs[..n], now);
      ServicesTell(s, vs[..n], now);
      ServicesExtend(s, vs[..n], now);
      EntriesKept(s, [], m, vs[n]);
      NothingNew(m, vs[n]);
    }
  }

  lemma {:induction false} ServicesExtend(s: State, vs: seq<Service>, now: int)
    requires NamesValid(s.db)
    ensures var s' := CollectServices(s, vs, now);
            Extends(s.db.hosts, s'.db.hosts) && Extends(s.db.services, s'.db.services)
  {
    if vs != [] {
      hide Extends, CollectService, OthersKept, Tells;
      var n := |vs| - 1;
      var m := CollectServices(s, vs[..n], now);
      ServicesExtend(s, vs[..n], now);
      ServicesTell(s, vs[..n], now);
      ServiceStep(m, vs[n], now);
      ExtendsTrans(s.db.hosts, m.db.hosts, CollectService(m, vs[n], now).db.hosts);
      ExtendsTrans(s.db.services, m.db.services, CollectService(m, vs[n], now).db.services);
    } else {
    }
  }

  /** Collecting the same answer twice, or any part of it again, stores and alerts no log line. */
  lemma RepeatIsSilent(db: Db, alerts: seq<Alert>, vs: seq<Service>, now: int, ws: seq<Service>, later: int)
    requires NamesValid(db) && (forall i | 0 <= i < |ws| :: ws[i] in vs)
    ensures var s := Collected(db, alerts, vs, now);
            var s' := Collected(s.db, s.alerts, ws, later);
            s'.db.book.rows == s.db.book.rows && LogText(s'.alerts) == LogText(s.alerts)
  {
    hide CollectServices, LogText, NamesValid, EntriesStored;
    var s0 := State(db, alerts, {});
    var s := Collected(db, alerts, vs, now);
    ServicesStore(s0, vs, now);
    CollectTells(db, alerts, vs, now);
    CollectTells(s.db, s.alerts, ws, later);
    forall i | 0 <= i < |ws| ensures EntriesStored(s.db, ws[i]) {
      StoredAnywhere(CollectServices(s0, vs, now), vs, ws[i], now);
    }
    StoredIsNoNews(State(s.db, s.alerts, {}), ws, later);
    GrowsByNone(s.db.book, Collected(s.db, s.alerts, ws, later).db.book);
  }

  lemma StoredAnywhere(s: State, vs: seq<Service>, v: Service, now: int)
    requires AllStored(s.db, vs) && v in vs
    ensures EntriesStored(Final(s, now).db, v)
  {
    var i :| 0 <= i < |vs| && vs[i] == v;
    assert EntriesStored(s.db, vs[i]);
  }

  lemma GrowsByNone(book: Book, book': Book)
    requires Grows(book, [], book')
    ensures book'.rows == book.rows
  {
    assert forall k :: !Has([], k);
  }

  // ---- The lines of one answer ----

  /** Services of different hosts or names have different ids. */
  lemma IdsDistinct(db: Db, v: Service, w: Service)
    requires NamesValid(db) && IsNamed(db, v) && IsNamed(db, w)
    ensures ServId(db, v) == ServId(db, w) <==> v.host == w.host && v.name == w.name
  {}

  /** The key of the service's `j`-th line. */
  function LineKey(db: Db, v: Service, j: nat): LogKey
    requires IsNamed(db, v) && j < |v.entries|
  {
    LogKey(ServId(db, v), v.entries[j].source, v.entries[j].date, v.entries[j].line)
  }

  /** What is stored and alerted for it. */
  function LineItem(db: Db, v: Service, j: nat): Item
    requires IsNamed(db, v) && j < |v.entries|
  {
    Item(LineKey(db, v, j), v.entries[j].ts, Folded(v.entries[j].level), v.entries[j].text)
  }

  predicate HasLine(vs: seq<Service>, i: int, j: int) { 0 <= i < |vs| && 0 <= j < |vs[i].entries| }

  /** The lines `i`, `j` and `a`, `b` of the answer are the same line of the same service. */
  predicate SameLines(vs: seq<Service>, i: nat, j: nat, a: nat, b: nat)
    requires HasLine(vs, i, j) && HasLine(vs, a, b)
  {
    vs[a].host == vs[i].host && vs[a].name == vs[i].name && SameLine(vs[a].entries[b], vs[i].entries[j])
  }

  /** No earlier line of the answer is the same. */
  ghost predicate FirstMention(vs: seq<Service>, i: nat, j: nat)
    requires HasLine(vs, i, j)
  {
    forall a, b | HasLine(vs, a, b) && (a < i || (a == i && b < j)) :: !SameLines(vs, i, j, a, b)
  }

  ghost predicate IsLineOf(db: Db, vs: seq<Service>, i: int, j: int, item: Item) {
    HasLine(vs, i, j) && IsNamed(db, vs[i]) && item == LineItem(db, vs[i], j)
  }

  ghost predicate OfAnswer(db: Db, vs: seq<Service>, item: Item) { exists i, j :: IsLineOf(db, vs, i, j, item) }

  lemma NewsOfService(s: State, v: Service, now: int, x: nat) returns (j: nat)
    requires NamesValid(s.db) && x < |NewsOf(s, v)|
    ensures var s' := CollectService(s, v, now);
            j < |v.entries| && IsNamed(s'.db, v) && NewsOf(s, v)[x] == LineItem(s'.db, v, j)
  {
    hide CollectService, Fresh, Named, Folded;
    var at := FreshAre(s.db.book.rows.Keys, ServId(Named(s, v).db, v), v.entries);
    CollectedId(s, v, now);
    j := at[x];
  }

  lemma OfAnswerStep(s: State, vs: seq<Service>, s': State, item: Item)
    requires vs != [] && OfAnswer(s.db, vs[..|vs| - 1], item)
    requires Extends(s.db.hosts, s'.db.hosts) && Extends(s.db.services, s'.db.services)
    ensures OfAnswer(s'.db, vs, item)
  {
    var i, j :| IsLineOf(s.db, vs[..|vs| - 1], i, j, item);
    assert vs[..|vs| - 1][i] == vs[i];
    assert IsLineOf(s'.db, vs, i, j, item);
  }

  /** All news are lines of the answer. */
  lemma {:induction false} NewsOfAnswer(s: State, vs: seq<Service>, now: int, x: nat)
    requires NamesValid(s.db) && x < |News(s, vs, now)|
    ensures OfAnswer(CollectServices(s, vs, now).db, vs, News(s, vs, now)[x])
  {
    hide OfAnswer, CollectService, NamesValid, NewsOf, Extends, Tells, OthersKept;
    var n := |vs| - 1;
    var m := CollectServices(s, vs[..n], now);
    ServicesTell(s, vs[..n], now);
    ServiceStep(m, vs[n], now);
    if x < |News(s, vs[..n], now)| {
      NewsOfAnswer(s, vs[..n], now, x);
      OfAnswerStep(m, vs, CollectServices(s, vs, now), News(s, vs, now)[x]);
    } else {
      var j := NewsOfService(m, vs[n], now, x - |News(s, vs[..n], now)|);
      LastOfAnswer(CollectServices(s, vs, now).db, vs, j);
    }
  }

  lemma LastOfAnswer(db: Db, vs: seq<Service>, j: nat)
    requires vs != [] && IsNamed(db, vs[|vs| - 1]) && j < |vs[|vs| - 1].entries|
    ensures OfAnswer(db, vs, LineItem(db, vs[|vs| - 1], j))
  {
    assert IsLineOf(db, vs, |vs| - 1, j, LineItem(db, vs[|vs| - 1], j));
  }

  /** A line of the last service that no earlier line of the answer equals and the tables did not hold
      is one of that service's first lines. */
  lemma FirstOfLast(s: State, vs: seq<Service>, now: int, j: nat)
    requires NamesValid(s.db) && vs != [] && HasLine(vs, |vs| - 1, j) && FirstMention(vs, |vs| - 1, j)
    requires var db := Named(CollectServices(s, vs[..|vs| - 1], now), vs[|vs| - 1]).db;
             IsNamed(db, vs[|vs| - 1]) && LineKey(db, vs[|vs| - 1], j) !in s.db.book.rows
    ensures var m := CollectServices(s, vs[..|vs| - 1], now);
            IsFirst(m.db.book.rows.Keys, ServId(Named(m, vs[|vs| - 1]).db, vs[|vs| - 1]), vs[|vs| - 1].entries, j)
  {
    hide CollectService, NamesValid, Named, News;
    var n := |vs| - 1;
    var m := CollectServices(s, vs[..n], now);
    ServicesTell(s, vs[..n], now);
    NamedKeeps(m, vs[n]);
    var db, k := Named(m, vs[n]).db, LineKey(Named(m, vs[n]).db, vs[n], j);
    if k in m.db.book.rows {
      var x :| 0 <= x < |News(s, vs[..n], now)| && News(s, vs[..n], now)[x].key == k;
      NewsOfAnswer(s, vs[..n], now, x);
      var a, b :| IsLineOf(m.db, vs[..n], a, b, News(s, vs[..n], now)[x]);
      SameKey(m.db, db, vs, j, a, b);
      assert false;
    }
    forall b | 0 <= b < j ensures !SameLine(vs[n].entries[b], vs[n].entries[j]) {
      assert HasLine(vs, n, b) && !SameLines(vs, n, j, n, b);
    }
  }

  lemma SameKey(old_: Db, db: Db, vs: seq<Service>, j: nat, a: nat, b: nat)
    requires vs != [] && HasLine(vs, |vs| - 1, j) && a < |vs| - 1 && HasLine(vs, a, b)
    requires NamesValid(db) && Extends(old_.hosts, db.hosts) && Extends(old_.services, db.services)
    requires IsNamed(db, vs[|vs| - 1]) && IsNamed(old_, vs[a])
    requires LineKey(old_, vs[a], b) == LineKey(db, vs[|vs| - 1], j)
    ensures SameLines(vs, |vs| - 1, j, a, b)
  {
    IdsDistinct(db, vs[a], vs[|vs| - 1]);
  }

  /** A first mention the tables did not hold is news. */
  lemma {:induction false} FirstIsNews(s: State, vs: seq<Service>, now: int, i: nat, j: nat)
    requires NamesValid(s.db) && HasLine(vs, i, j) && FirstMention(vs, i, j)
    ensures var db := CollectServices(s, vs, now).db;
            && IsNamed(db, vs[i])
            && (LineKey(db, vs[i], j) !in s.db.book.rows ==> LineItem(db, vs[i], j) in News(s, vs, now))
  {
    hide CollectService, NewsOf, Extends, Tells, OthersKept, FirstMention, Folded, Valid;
    var n := |vs| - 1;
    var m := CollectServices(s, vs[..n], now);
    ServicesTell(s, vs[..n], now);
    ServiceStep(m, vs[n], now);
    if i < n {
      MentionBefore(vs, i, j);
      FirstIsNews(s, vs[..n], now, i, j);
      SameIds(m.db, CollectServices(s, vs, now).db, vs[i]);
    } else if LineKey(CollectServices(s, vs, now).db, vs[n], j) !in s.db.book.rows {
      CollectedId(m, vs[n], now);
      LastIsNews(s, vs, now, j);
    }
  }

  lemma MentionBefore(vs: seq<Service>, i: nat, j: nat)
    requires HasLine(vs, i, j) && FirstMention(vs, i, j) && i < |vs| - 1
    ensures HasLine(vs[..|vs| - 1], i, j) && FirstMention(vs[..|vs| - 1], i, j)
  {
    var us := vs[..|vs| - 1];
    forall a, b | HasLine(us, a, b) && (a < i || (a == i && b < j)) ensures !SameLines(us, i, j, a, b) {
      assert HasLine(vs, a, b) && !SameLines(vs, i, j, a, b);
    }
  }

  lemma SameIds(a: Db, b: Db, v: Service)
    requires IsNamed(a, v) && Extends(a.hosts, b.hosts) && Extends(a.services, b.services)
    ensures IsNamed(b, v) && ServId(b, v) == ServId(a, v)
  {}

  lemma LastIsNews(s: State, vs: seq<Service>, now: int, j: nat)
    requires NamesValid(s.db) && vs != [] && HasLine(vs, |vs| - 1, j) && FirstMention(vs, |vs| - 1, j)
    requires var db := Named(CollectServices(s, vs[..|vs| - 1], now), vs[|vs| - 1]).db;
             IsNamed(db, vs[|vs| - 1]) && LineKey(db, vs[|vs| - 1], j) !in s.db.book.rows
    ensures LineItem(Named(CollectServices(s, vs[..|vs| - 1], now), vs[|vs| - 1]).db, vs[|vs| - 1], j)
         in News(s, vs, now)
  {
    hide CollectService, Named, Folded, Fresh, IsFirst, FirstMention, Valid;
    var n := |vs| - 1;
    var m := CollectServices(s, vs[..n], now);
    var at := FreshAre(m.db.book.rows.Keys, ServId(Named(m, vs[n]).db, vs[n]), vs[n].entries);
    FirstOfLast(s, vs, now, j);
    var x :| 0 <= x < |at| && at[x] == j;
    assert News(s, vs, now)[|News(s, vs[..n], now)| + x] == NewsOf(m, vs[n])[x];
  }

  /** Line by line over one answer, in the fields the agent sent: afterwards every line has a row under
      exactly its service, source, date and line number. A line that no earlier line of the answer
      equals and that the tables did not hold is stored with its own time, text and level, and its text
      is alerted. */
  lemma EveryLineKept(db: Db, alerts: seq<Alert>, vs: seq<Service>, now: int, i: nat, j: nat)
    requires NamesValid(db) && i < |vs| && j < |vs[i].entries|
    ensures var (s', e) := (Collected(db, alerts, vs, now), vs[i].entries[j]);
            && IsNamed(s'.db, vs[i])
            && var key := LogKey(ServId(s'.db, vs[i]), e.source, e.date, e.line);
            && key in s'.db.book.rows
            && (FirstMention(vs, i, j) && key !in db.book.rows ==>
                  && Folded(e.level) in s'.db.book.levels.of
                  && s'.db.book.rows[key] == LogRow(e.ts, s'.db.book.levels.of[Folded(e.level)], e.text)
                  && Item(key, e.ts, Folded(e.level), e.text) in News(State(db, alerts, {}), vs, now))
  {
    hide Folded, News, CollectServices, FirstMention, Valid, Missing, LogText;
    var s0 := State(db, alerts, {});
    var s1 := CollectServices(s0, vs, now);
    ServicesStore(s0, vs, now);
    assert EntriesStored(s1.db, vs[i]);
    if FirstMention(vs, i, j) && LineKey(s1.db, vs[i], j) !in db.book.rows {
      FirstIsNews(s0, vs, now, i, j);
      ServicesTell(s0, vs, now);
      var x :| 0 <= x < |News(s0, vs, now)| && News(s0, vs, now)[x] == LineItem(s1.db, vs[i], j);
      assert IsRowOf(s1.db.book, News(s0, vs, now)[x]);
    }
  }
}
