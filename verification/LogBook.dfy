/** The log part of a collect: new lines are stored and alerted, known ones are skipped. */
module LogBook {
  import opened Identities
  import opened Text

  /** The unique key of s$log_events. */
  datatype LogKey = LogKey(serv: nat, source: string, date: string, line: nat)

  datatype LogRow = LogRow(ts: int, level: nat, text: string)

  /** A line as the agent reports it. */
  datatype Entry = Entry(source: string, date: string, line: nat, level: string, ts: int, text: string)

  /** s$log_events and c$event_types. */
  datatype Book = Book(levels: Ids<string>, rows: map<LogKey, LogRow>)

  /** The loop's state: the tables, the alert text `t` and `maxlvl`. */
  datatype Reading = Reading(book: Book, text: string, level: nat)

  /** A line stored by a collect, with the folded name of its level. */
  datatype Item = Item(key: LogKey, ts: int, level: string, text: string)

  function KeyOf(serv: nat, e: Entry): LogKey { LogKey(serv, e.source, e.date, e.line) }

  function Folded(s: string): (r: string)
    ensures |r| == |s|
  {
    seq(|s|, i requires 0 <= i < |s| => Lower(s[i]))
  }

  function ItemOf(serv: nat, e: Entry): Item { Item(KeyOf(serv, e), e.ts, Folded(e.level), e.text) }

  function ReadEntry(r: Reading, serv: nat, e: Entry): Reading {
    if KeyOf(serv, e) in r.book.rows then r
    else
      var levels := Have(r.book.levels, Folded(e.level));
      var id := levels.of[Folded(e.level)];
      Reading(Book(levels, r.book.rows[KeyOf(serv, e) := LogRow(e.ts, id, e.text)]),
              r.text + e.text + "\n", if r.level < id then id else r.level)
  }

  function ReadEntries(r: Reading, serv: nat, es: seq<Entry>): Reading {
    if es == [] then r else ReadEntry(ReadEntries(r, serv, es[..|es| - 1]), serv, es[|es| - 1])
  }

  /** The lines of `es` whose key is neither in `known` nor on an earlier line, in order. */
  function Fresh(known: set<LogKey>, serv: nat, es: seq<Entry>): seq<Item> {
    if es == [] then []
    else
      var rest := Fresh(known, serv, es[..|es| - 1]);
      var e := es[|es| - 1];
      if KeyOf(serv, e) in known || (exists i | 0 <= i < |rest| :: rest[i].key == KeyOf(serv, e)) then rest
      else rest + [ItemOf(serv, e)]
  }

  /** The texts of `items`, one line each. */
  function Lines(items: seq<Item>): string {
    if items == [] then "" else Lines(items[..|items| - 1]) + items[|items| - 1].text + "\n"
  }

  lemma {:induction false} LinesConcat(a: seq<Item>, b: seq<Item>)
    ensures Lines(a + b) == Lines(a) + Lines(b)
  {
    if b == [] {
      assert a + b == a;
    } else {
      var n := |b| - 1;
      assert (a + b)[..|a + b| - 1] == a + b[..n];
      LinesConcat(a, b[..n]);
    }
  }

  /** The row of an item: its time, its text, and the id of its level. */
  predicate IsRowOf(book: Book, item: Item) {
    && item.key in book.rows && item.level in book.levels.of
    && book.rows[item.key] == LogRow(item.ts, book.levels.of[item.level], item.text)
  }

  /** `to` is `from` plus exactly the lines `items`: each key is new, appears once and has the line's
      row, and no other row appears, changes or goes. */
  ghost predicate Grows(from: Book, items: seq<Item>, to: Book) {
    && Extends(from.levels, to.levels)
    && (forall i, j | 0 <= i < j < |items| :: items[i].key != items[j].key)
    && (forall i | 0 <= i < |items| :: items[i].key !in from.rows && IsRowOf(to, items[i]))
    && (forall k | k in from.rows :: k in to.rows && to.rows[k] == from.rows[k])
    && forall k | k in to.rows :: k in from.rows || Has(items, k)
  }

  predicate Has(items: seq<Item>, k: LogKey) { exists i | 0 <= i < |items| :: items[i].key == k }

  lemma GrowsCompose(a: Book, m: seq<Item>, b: Book, n: seq<Item>, c: Book)
    requires Grows(a, m, b) && Grows(b, n, c)
    ensures Grows(a, m + n, c)
  {
    var s := m + n;
    forall i | 0 <= i < |s| ensures s[i].key !in a.rows && IsRowOf(c, s[i]) {
      if i < |m| {
        assert s[i] == m[i] && IsRowOf(b, m[i]);
      } else {
        assert s[i] == n[i - |m|] && IsRowOf(c, n[i - |m|]);
      }
    }
    forall k | k in c.rows ensures k in a.rows || Has(s, k) {
      HasConcat(m, n, k);
    }
  }

  lemma HasConcat(m: seq<Item>, n: seq<Item>, k: LogKey)
    ensures Has(m, k) || Has(n, k) ==> Has(m + n, k)
  {
    if i :| 0 <= i < |m| && m[i].key == k {
      assert (m + n)[i].key == k;
    } else if i :| 0 <= i < |n| && n[i].key == k {
      assert (m + n)[|m| + i].key == k;
    }
  }

  /** What one line adds. */
  function Added(rows: map<LogKey, LogRow>, serv: nat, e: Entry): seq<Item> {
    if KeyOf(serv, e) in rows then [] else [ItemOf(serv, e)]
  }

  lemma EntryGrows(r: Reading, serv: nat, e: Entry)
    requires Valid(r.book.levels)
    ensures Grows(r.book, Added(r.book.rows, serv, e), ReadEntry(r, serv, e).book)
    ensures Valid(ReadEntry(r, serv, e).book.levels)
  {
    hide Folded;
    HaveKeeps(r.book.levels, Folded(e.level));
    var item := ItemOf(serv, e);
    assert [item][0] == item;
    assert Has([item], item.key);
  }

  /** `level` is the largest of `before` and the levels of the items. */
  ghost predicate IsTop(level: nat, before: nat, items: seq<Item>, book: Book) {
    && before <= level
    && (forall i | 0 <= i < |items| :: items[i].key in book.rows && book.rows[items[i].key].level <= level)
    && (level == before || exists i | 0 <= i < |items| :: HasLevel(book, items[i], level))
  }

  predicate HasLevel(book: Book, item: Item, level: nat) {
    item.key in book.rows && book.rows[item.key].level == level
  }

  lemma TopCompose(a: Reading, m: seq<Item>, b: Reading, n: seq<Item>, c: Reading)
    requires IsTop(b.level, a.level, m, b.book) && IsTop(c.level, b.level, n, c.book) && Grows(b.book, n, c.book)
    ensures IsTop(c.level, a.level, m + n, c.book)
  {
    var s := m + n;
    forall i | 0 <= i < |s|
      ensures s[i].key in c.book.rows && c.book.rows[s[i].key].level <= c.level
    {
      if i < |m| {
        assert s[i] == m[i];
      } else {
        assert s[i] == n[i - |m|];
      }
    }
    if c.level != a.level {
      if c.level == b.level {
        var i :| 0 <= i < |m| && HasLevel(b.book, m[i], b.level);
        assert HasLevel(c.book, s[i], c.level);
      } else {
        var i :| 0 <= i < |n| && HasLevel(c.book, n[i], c.level);
        assert HasLevel(c.book, s[|m| + i], c.level);
      }
    }
  }

  /** From `r` to `r'` exactly the lines `items` were stored and put into the alert text, and
      `maxlvl` is the largest of their levels. */
  ghost predicate Advances(r: Reading, items: seq<Item>, r': Reading) {
    && Valid(r'.book.levels)
    && Grows(r.book, items, r'.book)
    && r'.text == r.text + Lines(items)
    && IsTop(r'.level, r.level, items, r'.book)
  }

  lemma AdvancesCompose(a: Reading, m: seq<Item>, b: Reading, n: seq<Item>, c: Reading)
    requires Advances(a, m, b) && Advances(b, n, c)
    ensures Advances(a, m + n, c)
  {
    hide Grows, Valid, Lines, IsTop;
    GrowsCompose(a.book, m, b.book, n, c.book);
    TopCompose(a, m, b, n, c);
    LinesConcat(m, n);
    assert a.text + Lines(m) + Lines(n) == a.text + (Lines(m) + Lines(n));
  }

  lemma EntryAdvances(r: Reading, serv: nat, e: Entry)
    requires Valid(r.book.levels)
    ensures Advances(r, Added(r.book.rows, serv, e), ReadEntry(r, serv, e))
  {
    hide Grows, Folded, Valid;
    EntryGrows(r, serv, e);
    EntryTop(r, serv, e);
    hide IsTop;
    var item := ItemOf(serv, e);
    assert [item][..0] == [] && "" + e.text == e.text;
    assert Lines([item]) == e.text + "\n";
    assert r.text + (e.text + "\n") == r.text + e.text + "\n" && r.text + "" == r.text;
  }

  lemma EntryTop(r: Reading, serv: nat, e: Entry)
    ensures IsTop(ReadEntry(r, serv, e).level, r.level, Added(r.book.rows, serv, e), ReadEntry(r, serv, e).book)
  {
    hide Folded;
    var book := ReadEntry(r, serv, e).book;
    var items := Added(r.book.rows, serv, e);
    if items != [] {
      assert HasLevel(book, items[0], book.rows[items[0].key].level);
    }
  }

  /** Every level has a positive id, so `maxlvl` tells whether there is anything to alert. */
  lemma TopPositive(r: Reading, items: seq<Item>, r': Reading)
    requires Advances(r, items, r') && r.level == 0
    ensures r'.level > 0 <==> items != []
  {
    if items != [] { assert IsRowOf(r'.book, items[0]); }
  }

  /** Whether a line is fresh can be read off the table as it has grown so far. */
  lemma FreshStep(from: Book, items: seq<Item>, to: Book, serv: nat, es: seq<Entry>)
    requires es != [] && items == Fresh(from.rows.Keys, serv, es[..|es| - 1]) && Grows(from, items, to)
    ensures Fresh(from.rows.Keys, serv, es) == items + Added(to.rows, serv, es[|es| - 1])
  {
    var k := KeyOf(serv, es[|es| - 1]);
    if i :| 0 <= i < |items| && items[i].key == k { assert IsRowOf(to, items[i]); }
    assert k in to.rows <==> k in from.rows || Has(items, k);
  }

  /** One service's lines: the table grows by the fresh ones, whose texts make up the alert text. */
  lemma {:induction false} EntriesAdvance(r: Reading, serv: nat, es: seq<Entry>)
    requires Valid(r.book.levels)
    ensures Advances(r, Fresh(r.book.rows.Keys, serv, es), ReadEntries(r, serv, es))
  {
    if es != [] {
      hide Fresh, Added, ReadEntry, Grows, Lines, IsTop;
      var n := |es| - 1;
      var m := ReadEntries(r, serv, es[..n]);
      EntriesAdvance(r, serv, es[..n]);
      EntryAdvances(m, serv, es[n]);
      FreshStep(r.book, Fresh(r.book.rows.Keys, serv, es[..n]), m.book, serv, es);
      AdvancesCompose(r, Fresh(r.book.rows.Keys, serv, es[..n]), m, Added(m.book.rows, serv, es[n]),
          ReadEntry(m, serv, es[n]));
    }
  }

  /** There is a fresh line exactly when some line's key is not stored, and afterwards all are. */
  lemma {:induction false} EntriesKnown(known: set<LogKey>, serv: nat, es: seq<Entry>)
    ensures Fresh(known, serv, es) == [] <==> forall i | 0 <= i < |es| :: KeyOf(serv, es[i]) in known
    ensures forall i | 0 <= i < |es| :: KeyOf(serv, es[i]) in known || Has(Fresh(known, serv, es), KeyOf(serv, es[i]))
  {
    if es != [] {
      var n := |es| - 1;
      EntriesKnown(known, serv, es[..n]);
      var rest := Fresh(known, serv, es[..n]);
      assert forall i | 0 <= i < n :: es[..n][i] == es[i];
      var all := Fresh(known, serv, es);
      assert rest <= all;
      assert forall i | 0 <= i < |rest| :: all[i] == rest[i];
      if KeyOf(serv, es[n]) !in known && !Has(rest, KeyOf(serv, es[n])) {
        assert all[|rest|].key == KeyOf(serv, es[n]);
      }
      forall i | 0 <= i < |es|
        ensures KeyOf(serv, es[i]) in known || Has(all, KeyOf(serv, es[i]))
      {
        if i < n && KeyOf(serv, es[i]) !in known {
          assert KeyOf(serv, es[..n][i]) in known || Has(rest, KeyOf(serv, es[..n][i]));
          var x :| 0 <= x < |rest| && rest[x].key == KeyOf(serv, es[i]);
          assert all[x].key == KeyOf(serv, es[i]);
        }
      }
    }
  }

  // ---- Which lines are the same ----

  /** The same line of the same source. */
  predicate SameLine(a: Entry, b: Entry) { a.source == b.source && a.date == b.date && a.line == b.line }

  /** The `i`-th line is not stored for the service, and no earlier one is the same. */
  predicate IsFirst(known: set<LogKey>, serv: nat, es: seq<Entry>, i: nat)
    requires i < |es|
  {
    && LogKey(serv, es[i].source, es[i].date, es[i].line) !in known
    && forall j | 0 <= j < i :: !SameLine(es[j], es[i])
  }

  /** The fresh lines are the first ones, in order, each under its own service, source, date and line
      number and with its own time, level and text. */
  lemma {:induction false} FreshAre(known: set<LogKey>, serv: nat, es: seq<Entry>) returns (at: seq<nat>)
    ensures |at| == |Fresh(known, serv, es)|
    ensures forall x, y | 0 <= x < y < |at| :: at[x] < at[y]
    ensures forall i :: i in at <==> 0 <= i < |es| && IsFirst(known, serv, es, i)
    ensures forall x | 0 <= x < |at| ::
              at[x] < |es| && var e := es[at[x]];
              Fresh(known, serv, es)[x] == Item(LogKey(serv, e.source, e.date, e.line), e.ts, Folded(e.level), e.text)
  {
    at := [];
    if es != [] {
      var n := |es| - 1;
      at := FreshAre(known, serv, es[..n]);
      var e, rest, was := es[n], Fresh(known, serv, es[..n]), at;
      forall i | 0 <= i < n ensures IsFirst(known, serv, es[..n], i) == IsFirst(known, serv, es, i) {
        assert forall j | 0 <= j <= i :: es[..n][j] == es[j];
      }
      FirstOrHas(known, serv, es, at);
      if IsFirst(known, serv, es, n) { at := at + [n]; }
    }
  }

  /** The last line is fresh iff it is a first one. */
  lemma FirstOrHas(known: set<LogKey>, serv: nat, es: seq<Entry>, at: seq<nat>)
    requires es != []
    requires var rest := Fresh(known, serv, es[..|es| - 1]);
             && |at| == |rest|
             && (forall i :: i in at <==> 0 <= i < |es| - 1 && IsFirst(known, serv, es[..|es| - 1], i))
             && forall x | 0 <= x < |at| :: at[x] < |es| - 1 && rest[x].key == KeyOf(serv, es[at[x]])
    ensures var (n, rest) := (|es| - 1, Fresh(known, serv, es[..|es| - 1]));
            Fresh(known, serv, es) == if IsFirst(known, serv, es, n) then rest + [ItemOf(serv, es[n])] else rest
  {
    hide Folded, ItemOf;
    var n, rest := |es| - 1, Fresh(known, serv, es[..|es| - 1]);
    EntriesKnown(known, serv, es[..n]);
    if x :| 0 <= x < |rest| && rest[x].key == KeyOf(serv, es[n]) {
      assert SameLine(es[at[x]], es[n]);
    }
    if j :| 0 <= j < n && SameLine(es[j], es[n]) {
      assert es[..n][j] == es[j];
      assert KeyOf(serv, es[j]) == KeyOf(serv, es[n]);
    }
  }

  /** Level names are told apart up to the case of their letters. */
  lemma FoldedSame(a: string, b: string)
    ensures Folded(a) == Folded(b) <==> SameName(a, b)
  {
    if SameName(a, b) {
      assert Folded(a) == Folded(b);
    }
    if Folded(a) == Folded(b) {
      forall i | 0 <= i < |a| ensures Lower(a[i]) == Lower(b[i]) {
        assert Folded(a)[i] == Folded(b)[i];
      }
    }
  }

  lemma FoldedIs(s: string, i: nat)
    requires i < |s|
    ensures Folded(s)[i] as int == s[i] as int + if 'A' <= s[i] <= 'Z' then 32 else 0
  {}

  /** An alert text can be read back line by line. */
  lemma LinesRead(items: seq<Item>)
    requires items != [] && '\n' !in items[0].text
    ensures Getline(Lines(items)) == (items[0].text, Lines(items[1..]))
  {
    var first := items[..1];
    assert items == first + items[1..] && first[..0] == [];
    LinesConcat(first, items[1..]);
    assert "" + items[0].text == items[0].text;
    GetlineIs(items[0].text, Lines(items[1..]));
  }
}
