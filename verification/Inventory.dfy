/** The source inventory: cards grouped by source, with rights-relevant facts for each group. */
module Inventory {
  import opened Common
  import opened Calendar

  type ValidDate = d: Date | Valid(d) witness Date(1, 1, 1)

  datatype SourceClass = T1Regulatory | T1VendorPolicy | T2Evidence | T3Practitioner | T4Experiential

  datatype Card = Card(id: string, sourceUrl: string, sourceType: string, retrievedAt: ValidDate)

  datatype Row = Row(
    url: string,
    sourceClass: SourceClass,
    acquiredAt: ValidDate,
    cards: seq<Card>,
    concentrated: bool,
    expiresAt: Option<Date>)

  datatype Outcome =
    | Conflict(url: string)  // one remote source with cards of different classes
    | NoExpiry(url: string)  // an expiry past the end of the calendar
    | Rows(rows: seq<Row>)

  const LOCAL_PREFIX := "archives/business-knowledge/"

  /** The cards of one source, in corpus order. */
  function Group(cards: seq<Card>, url: string): (g: seq<Card>)
    ensures forall c :: c in g <==> c in cards && c.sourceUrl == url
    ensures |g| <= |cards|
  {
    if cards == [] then []
    else
      var last := cards[|cards| - 1];
      assert cards == cards[..|cards| - 1] + [last];
      Group(cards[..|cards| - 1], url) + (if last.sourceUrl == url then [last] else [])
  }

  function Urls(cards: seq<Card>): set<string> {
    set i | 0 <= i < |cards| :: cards[i].sourceUrl
  }

  function Classes(classOf: string -> SourceClass, cards: seq<Card>): set<SourceClass> {
    set i | 0 <= i < |cards| :: classOf(cards[i].sourceType)
  }

  predicate IsLocal(url: string) {
    LOCAL_PREFIX <= url
  }

  predicate Conflicting(classOf: string -> SourceClass, cards: seq<Card>, url: string) {
    !IsLocal(url) &&
    exists c, d ::
      c in Group(cards, url) && d in Group(cards, url) && classOf(c.sourceType) != classOf(d.sourceType)
  }

  function ClassFor(classOf: string -> SourceClass, cards: seq<Card>, url: string): SourceClass
    requires Group(cards, url) != []
  {
    if IsLocal(url) then T3Practitioner else classOf(Group(cards, url)[0].sourceType)
  }

  function Earliest(cards: seq<Card>): (d: ValidDate)
    requires cards != []
    ensures exists c :: c in cards && c.retrievedAt == d
    ensures forall c :: c in cards ==> !Before(c.retrievedAt, d)
  {
    var last := cards[|cards| - 1];
    assert cards == cards[..|cards| - 1] + [last];
    if |cards| == 1 then last.retrievedAt
    else
      var d := Earliest(cards[..|cards| - 1]);
      if Before(last.retrievedAt, d) then last.retrievedAt else d
  }

  /** A tenth of the corpus or more comes from this one source. */
  predicate Concentrated(part: nat, whole: nat) {
    10 * part >= whole
  }

  predicate Overflows(classOf: string -> SourceClass, cards: seq<Card>, url: string)
    requires Group(cards, url) != []
  {
    ClassFor(classOf, cards, url).T4Experiential? && AddSixMonths(Earliest(Group(cards, url))).None?
  }

  function RowFor(classOf: string -> SourceClass, cards: seq<Card>, url: string): Row
    requires Group(cards, url) != []
  {
    var g := Group(cards, url);
    var cls := ClassFor(classOf, cards, url);
    Row(url, cls, Earliest(g), g, Concentrated(|g|, |cards|),
        if cls.T4Experiential? then AddSixMonths(Earliest(g)) else None)
  }

  // ---------------------------------------------------------------- the order of the rows

  ghost predicate First(u: string, s: set<string>) {
    u in s && forall v :: v in s && v != u ==> LexLess(u, v)
  }

  method TakeFirst(s: set<string>) returns (u: string)
    requires s != {}
    ensures First(u, s)
  {
    u :| u in s;
    var rest := s - {u};
    while rest != {}
      invariant u in s && rest <= s
      invariant forall v :: v in s && v !in rest && v != u ==> LexLess(u, v)
      decreases rest
    {
      var v :| v in rest;
      rest := rest - {v};
      LexTotal(u, v);
      if LexLess(v, u) {
        forall w | w in s && w !in rest && w != v ensures LexLess(v, w) {
          if w != u {
            LexTransitive(v, u, w);
          }
        }
        u := v;
      }
    }
  }

  // ---------------------------------------------------------------- the inventory

  method GroupCards(cards: seq<Card>) returns (grouped: map<string, seq<Card>>)
    ensures GroupedBy(grouped, cards)
  {
    grouped := map[];
    for i := 0 to |cards|
      invariant GroupedBy(grouped, cards[..i])
    {
      var card := cards[i];
      GroupedStep(grouped, cards[..i], card);
      assert cards[..i + 1] == cards[..i] + [card];
      var old_ := if card.sourceUrl in grouped then grouped[card.sourceUrl] else [];
      grouped := grouped[card.sourceUrl := old_ + [card]];
    }
    assert cards[..|cards|] == cards;
  }

  ghost predicate GroupedBy(grouped: map<string, seq<Card>>, cards: seq<Card>) {
    && grouped.Keys == Urls(cards)
    && (forall u :: u in grouped ==> grouped[u] == Group(cards, u) && grouped[u] != [])
  }

  lemma GroupedStep(grouped: map<string, seq<Card>>, cards: seq<Card>, card: Card)
    requires GroupedBy(grouped, cards)
    ensures
      var before := if card.sourceUrl in grouped then grouped[card.sourceUrl] else [];
      GroupedBy(grouped[card.sourceUrl := before + [card]], cards + [card])
  {
    var longer := cards + [card];
    var before := if card.sourceUrl in grouped then grouped[card.sourceUrl] else [];
    var after := grouped[card.sourceUrl := before + [card]];
    UrlsSnoc(cards, card);
    forall u | u in after ensures after[u] == Group(longer, u) && after[u] != [] {
      GroupSnoc(cards, card, u);
      GroupMember(cards, u);
    }
  }

  lemma UrlsSnoc(cards: seq<Card>, card: Card)
    ensures Urls(cards + [card]) == Urls(cards) + {card.sourceUrl}
  {
    var longer := cards + [card];
    assert longer[|cards|] == card;
    forall i | 0 <= i < |cards| ensures longer[i] == cards[i] {}
    forall u | u in Urls(cards) ensures u in Urls(longer) {
      var i :| 0 <= i < |cards| && cards[i].sourceUrl == u;
      assert longer[i].sourceUrl == u;
    }
  }

  lemma GroupSnoc(cards: seq<Card>, card: Card, u: string)
    ensures Group(cards + [card], u) == Group(cards, u) + (if card.sourceUrl == u then [card] else [])
  {
    assert (cards + [card])[..|cards|] == cards;
  }

  lemma GroupMember(cards: seq<Card>, u: string)
    ensures Group(cards, u) == [] || u in Urls(cards)
  {
    if Group(cards, u) != [] {
      var c := Group(cards, u)[0];
      var i :| 0 <= i < |cards| && cards[i] == c;
      assert cards[i].sourceUrl in Urls(cards);
    }
  }

  ghost predicate Sorted(rows: seq<Row>) {
    forall i, j :: 0 <= i < j < |rows| ==> LexLess(rows[i].url, rows[j].url)
  }

  ghost predicate IsRow(classOf: string -> SourceClass, cards: seq<Card>, row: Row) {
    Group(cards, row.url) != [] && row == RowFor(classOf, cards, row.url)
  }

  ghost predicate Covered(rows: seq<Row>, url: string) {
    exists i :: 0 <= i < |rows| && rows[i].url == url
  }

  /** One right row for every source in `done`, and no others. */
  ghost predicate Complete(classOf: string -> SourceClass, cards: seq<Card>, rows: seq<Row>, done: set<string>) {
    && (forall i :: 0 <= i < |rows| ==> IsRow(classOf, cards, rows[i]) && rows[i].url in done)
    && (forall u :: u in done ==> Covered(rows, u))
  }

  /** The body of the inventory loop: one source's row, or the reason there is none. */
  method BuildRow(cards: seq<Card>, classOf: string -> SourceClass, url: string, g: seq<Card>) returns (r: Outcome)
    requires g == Group(cards, url) && g != []
    ensures r.Conflict? ==> r.url == url && Conflicting(classOf, cards, url)
    ensures r.NoExpiry? ==> r.url == url && Overflows(classOf, cards, url)
    ensures r.Rows? ==> r.rows == [RowFor(classOf, cards, url)]
    ensures r.Rows? ==> !Conflicting(classOf, cards, url) && !Overflows(classOf, cards, url)
  {
    var classes := Classes(classOf, g);
    ClassesDecideConflict(classOf, g);
    if !IsLocal(url) && |classes| != 1 {
      return Conflict(url);
    }
    var cls := if IsLocal(url) then T3Practitioner else classOf(g[0].sourceType);
    var acquired := Earliest(g);
    var expires := if cls.T4Experiential? then AddSixMonths(acquired) else None;
    if cls.T4Experiential? && expires.None? {
      return NoExpiry(url);
    }
    r := Rows([Row(url, cls, acquired, g, Concentrated(|g|, |cards|), expires)]);
  }

  /** `_build_source_inventory`: the first offending source in sorted order raises; otherwise one row
      per source, in sorted order, each exactly the row its cards call for. */
  method BuildSourceInventory(cards: seq<Card>, classOf: string -> SourceClass) returns (r: Outcome)
    ensures r.Rows? ==> Sorted(r.rows) && Complete(classOf, cards, r.rows, Urls(cards))
    ensures r.Rows? ==> AllSound(classOf, cards, Urls(cards))
    ensures r.Conflict? ==> r.url in Urls(cards) && Conflicting(classOf, cards, r.url)
    ensures r.NoExpiry? ==> r.url in Urls(cards) && Group(cards, r.url) != [] && Overflows(classOf, cards, r.url)
    ensures !r.Rows? ==> SoundBefore(classOf, cards, r.url)
  {
    var grouped := GroupCards(cards);
    var todo, rows := grouped.Keys, [];
    ghost var done: set<string> := {};
    while todo != {}
      invariant todo + done == Urls(cards)
      invariant Partway(classOf, cards, rows, done, todo)
      decreases todo
    {
      var url := TakeFirst(todo);
      var row := BuildRow(cards, classOf, url, grouped[url]);
      if !row.Rows? {
        EarlierAreSound(classOf, cards, done, todo, url);
        return row;
      }
      NextRow(classOf, cards, rows, done, todo, url);
      todo, done, rows := todo - {url}, done + {url}, rows + row.rows;
    }
    r := Rows(rows);
  }

  ghost predicate AllBefore(done: set<string>, todo: set<string>) {
    forall u, v :: u in done && v in todo ==> LexLess(u, v)
  }

  /** The rows so far: those of the sources in `done`, all of which come before the rest. */
  ghost predicate Partway(
      classOf: string -> SourceClass, cards: seq<Card>, rows: seq<Row>, done: set<string>, todo: set<string>)
  {
    && Sorted(rows) && Complete(classOf, cards, rows, done)
    && AllBefore(done, todo) && AllSound(classOf, cards, done)
  }

  lemma FirstComesNext(done: set<string>, todo: set<string>, url: string)
    requires AllBefore(done, todo) && First(url, todo)
    ensures AllBefore(done + {url}, todo - {url}) && (todo - {url}) + (done + {url}) == todo + done
  {
  }

  lemma NextRow(
      classOf: string -> SourceClass, cards: seq<Card>, rows: seq<Row>, done: set<string>, todo: set<string>,
      url: string)
    requires Partway(classOf, cards, rows, done, todo) && First(url, todo) && Group(cards, url) != []
    requires !Conflicting(classOf, cards, url) && !Overflows(classOf, cards, url)
    ensures (todo - {url}) + (done + {url}) == todo + done
    ensures Partway(classOf, cards, rows + [RowFor(classOf, cards, url)], done + {url}, todo - {url})
  {
    RowAppended(classOf, cards, rows, done, url);
    FirstComesNext(done, todo, url);
    forall u | u in done + {url}
      ensures Group(cards, u) != [] && !Conflicting(classOf, cards, u) && !Overflows(classOf, cards, u)
    {
      assert u in done || u == url;
    }
  }

  lemma EarlierAreSound(
      classOf: string -> SourceClass, cards: seq<Card>, done: set<string>, todo: set<string>, url: string)
    requires First(url, todo) && todo + done == Urls(cards) && AllSound(classOf, cards, done)
    ensures SoundBefore(classOf, cards, url)
  {
    forall u | u in Urls(cards) && LexLess(u, url) ensures u in done {
      LexAsymmetric(u, url);
    }
  }

  /** No source that sorts before this one has a reason to stop the inventory. */
  ghost predicate SoundBefore(classOf: string -> SourceClass, cards: seq<Card>, url: string) {
    forall u :: u in Urls(cards) && LexLess(u, url) ==>
      Group(cards, u) != [] && !Conflicting(classOf, cards, u) && !Overflows(classOf, cards, u)
  }

  /** None of these sources has a reason to stop the inventory. */
  ghost predicate AllSound(classOf: string -> SourceClass, cards: seq<Card>, urls: set<string>) {
    forall u :: u in urls ==>
      Group(cards, u) != [] && !Conflicting(classOf, cards, u) && !Overflows(classOf, cards, u)
  }

  lemma RowsAppended(
      classOf: string -> SourceClass, cards: seq<Card>, rows: seq<Row>, done: set<string>, row: Row)
    requires Complete(classOf, cards, rows, done) && IsRow(classOf, cards, row)
    ensures Complete(classOf, cards, rows + [row], done + {row.url})
  {
    var longer := rows + [row];
    assert longer[|rows|] == row;
    forall i | 0 <= i < |longer| ensures IsRow(classOf, cards, longer[i]) && longer[i].url in done + {row.url} {
      assert i < |rows| ==> longer[i] == rows[i];
    }
    forall u | u in done + {row.url} ensures Covered(longer, u) {
      if u in done {
        var i :| 0 <= i < |rows| && rows[i].url == u;
        assert longer[i].url == u;
      }
    }
  }

  lemma SortedAppended(rows: seq<Row>, row: Row)
    requires Sorted(rows) && forall i :: 0 <= i < |rows| ==> LexLess(rows[i].url, row.url)
    ensures Sorted(rows + [row])
  {
  }

  lemma RowAppended(classOf: string -> SourceClass, cards: seq<Card>, rows: seq<Row>, done: set<string>, url: string)
    requires Sorted(rows) && Complete(classOf, cards, rows, done) && Group(cards, url) != []
    requires forall u :: u in done ==> LexLess(u, url)
    ensures
      var longer := rows + [RowFor(classOf, cards, url)];
      Sorted(longer) && Complete(classOf, cards, longer, done + {url})
  {
    var row := RowFor(classOf, cards, url);
    RowsAppended(classOf, cards, rows, done, row);
    SortedAppended(rows, row);
  }

  lemma ClassesDecideConflict(classOf: string -> SourceClass, g: seq<Card>)
    requires g != []
    ensures |Classes(classOf, g)| == 1 <==>
            forall c, d :: c in g && d in g ==> classOf(c.sourceType) == classOf(d.sourceType)
  {
    var s := Classes(classOf, g);
    var x := classOf(g[0].sourceType);
    assert x in s;
    if forall c, d :: c in g && d in g ==> classOf(c.sourceType) == classOf(d.sourceType) {
      assert g[0] in g;
      forall y | y in s ensures y == x {
        var i :| 0 <= i < |g| && classOf(g[i].sourceType) == y;
        assert g[i] in g;
      }
      assert s == {x};
    }
    if |s| == 1 {
      forall c | c in g ensures classOf(c.sourceType) == x {
        var i :| 0 <= i < |g| && g[i] == c;
        assert classOf(g[i].sourceType) in s;
        OneElement(s, x, classOf(c.sourceType));
      }
    }
  }

  lemma OneElement<T>(s: set<T>, x: T, y: T)
    requires x in s && y in s && |s| == 1
    ensures x == y
  {
    assert |s - {x}| == 0;
  }

  // ---------------------------------------------------------------- what the inventory promises

  function Total(rows: seq<Row>): nat {
    if rows == [] then 0 else Total(rows[..|rows| - 1]) + |rows[|rows| - 1].cards|
  }

  function GroupTotal(cards: seq<Card>, urls: seq<string>): nat {
    if urls == [] then 0 else GroupTotal(cards, urls[..|urls| - 1]) + |Group(cards, urls[|urls| - 1])|
  }

  /** Adding one card adds one to the total of the groups, if its source is among them. */
  lemma {:induction false} GroupTotalStep(cards: seq<Card>, card: Card, urls: seq<string>)
    requires Distinct(urls)
    ensures GroupTotal(cards + [card], urls) ==
            GroupTotal(cards, urls) + (if card.sourceUrl in urls then 1 else 0)
  {
    if urls != [] {
      var front, last := urls[..|urls| - 1], urls[|urls| - 1];
      GroupTotalStep(cards, card, front);
      assert |Group(cards + [card], last)| == |Group(cards, last)| + (if card.sourceUrl == last then 1 else 0) by {
        GroupSnoc(cards, card, last);
      }
      assert card.sourceUrl in urls <==> card.sourceUrl in front || card.sourceUrl == last by {
        assert urls == front + [last];
      }
      assert last !in front;
    }
  }

  lemma {:induction false} GroupTotalIsAll(cards: seq<Card>, urls: seq<string>)
    requires Distinct(urls) && forall c :: c in cards ==> c.sourceUrl in urls
    ensures GroupTotal(cards, urls) == |cards|
  {
    if cards == [] {
      GroupTotalOfNone(urls);
    } else {
      var front, last := cards[..|cards| - 1], cards[|cards| - 1];
      assert cards == front + [last];
      GroupTotalIsAll(front, urls);
      GroupTotalStep(front, last, urls);
    }
  }

  lemma {:induction false} GroupTotalOfNone(urls: seq<string>)
    ensures GroupTotal([], urls) == 0
  {
    if urls != [] {
      GroupTotalOfNone(urls[..|urls| - 1]);
    }
  }

  function UrlsOf(rows: seq<Row>): (urls: seq<string>)
    ensures |urls| == |rows|
    ensures forall i :: 0 <= i < |rows| ==> urls[i] == rows[i].url
  {
    seq(|rows|, i requires 0 <= i < |rows| => rows[i].url)
  }

  lemma {:induction false} TotalIsGroupTotal(cards: seq<Card>, rows: seq<Row>)
    requires forall i :: 0 <= i < |rows| ==> rows[i].cards == Group(cards, rows[i].url)
    ensures Total(rows) == GroupTotal(cards, UrlsOf(rows))
  {
    if rows != [] {
      TotalIsGroupTotal(cards, rows[..|rows| - 1]);
      assert UrlsOf(rows)[..|rows| - 1] == UrlsOf(rows[..|rows| - 1]);
    }
  }

  lemma RowsHaveDistinctUrls(rows: seq<Row>)
    requires Sorted(rows)
    ensures Distinct(UrlsOf(rows))
  {
    forall i, j | 0 <= i < j < |rows| ensures rows[i].url != rows[j].url {
      LexAsymmetric(rows[i].url, rows[j].url);
    }
  }

  lemma CardHasItsRow(classOf: string -> SourceClass, cards: seq<Card>, rows: seq<Row>, c: Card) returns (i: nat)
    requires Complete(classOf, cards, rows, Urls(cards)) && c in cards
    ensures i < |rows| && rows[i].url == c.sourceUrl && c in rows[i].cards
  {
    var k :| 0 <= k < |cards| && cards[k] == c;
    assert cards[k].sourceUrl in Urls(cards);
    assert Covered(rows, c.sourceUrl);
    i :| 0 <= i < |rows| && rows[i].url == c.sourceUrl;
    assert IsRow(classOf, cards, rows[i]);
  }

  /** The inventory is a partition: every card is in the row of its own source and in no other, and
      the row counts add up to the corpus. */
  lemma InventoryPartitions(classOf: string -> SourceClass, cards: seq<Card>, rows: seq<Row>)
    requires Sorted(rows) && Complete(classOf, cards, rows, Urls(cards))
    ensures forall c :: c in cards ==> exists i :: 0 <= i < |rows| && c in rows[i].cards
    ensures forall i, j, c :: 0 <= i < |rows| && 0 <= j < |rows| && c in rows[i].cards && c in rows[j].cards ==> i == j
    ensures Total(rows) == |cards|
  {
    RowsHaveDistinctUrls(rows);
    var urls := UrlsOf(rows);
    forall c | c in cards ensures c.sourceUrl in urls && exists i :: 0 <= i < |rows| && c in rows[i].cards {
      var i := CardHasItsRow(classOf, cards, rows, c);
      assert urls[i] == c.sourceUrl;
    }
    forall i, j, c | 0 <= i < |rows| && 0 <= j < |rows| && c in rows[i].cards && c in rows[j].cards ensures i == j {
      assert IsRow(classOf, cards, rows[i]) && IsRow(classOf, cards, rows[j]);
      assert urls[i] == c.sourceUrl == urls[j];
    }
    forall i | 0 <= i < |rows| ensures rows[i].cards == Group(cards, rows[i].url) {
      assert IsRow(classOf, cards, rows[i]);
    }
    TotalIsGroupTotal(cards, rows);
    GroupTotalIsAll(cards, urls);
  }

  /** Each row's acquisition date bounds its cards from below and is one of theirs; a row expires
      exactly when it is experiential, 181 to 184 days later. */
  lemma AcquiredAndExpiry(classOf: string -> SourceClass, cards: seq<Card>, rows: seq<Row>, i: nat)
    requires Complete(classOf, cards, rows, Urls(cards)) && i < |rows|
    requires !Overflows(classOf, cards, rows[i].url)
    ensures forall c :: c in rows[i].cards ==> Ordinal(rows[i].acquiredAt) <= Ordinal(c.retrievedAt)
    ensures exists c :: c in rows[i].cards && c.retrievedAt == rows[i].acquiredAt
    ensures rows[i].expiresAt.Some? <==> rows[i].sourceClass.T4Experiential?
    ensures rows[i].expiresAt.Some? ==> rows[i].expiresAt == AddSixMonths(rows[i].acquiredAt)
    ensures rows[i].expiresAt.Some? ==>
              Valid(rows[i].expiresAt.value)
                && 181 <= Ordinal(rows[i].expiresAt.value) - Ordinal(rows[i].acquiredAt) <= 184
  {
    forall c | c in rows[i].cards ensures Ordinal(rows[i].acquiredAt) <= Ordinal(c.retrievedAt) {
      OrdinalOrder(c.retrievedAt, rows[i].acquiredAt);
    }
    if rows[i].expiresAt.Some? {
      AddSixMonthsIsValid(rows[i].acquiredAt);
      SixMonthsInDays(rows[i].acquiredAt);
    }
  }

  /** A row in terms of the cards. It has, in order, the cards of its own source; its class is that of the
      repository's own archive, or the one class of all its cards; and it is flagged as concentrated
      exactly if it has a tenth of the corpus or more. */
  lemma RowExactly(classOf: string -> SourceClass, cards: seq<Card>, rows: seq<Row>, i: nat)
      returns (at: seq<nat>)
    requires Complete(classOf, cards, rows, Urls(cards)) && AllSound(classOf, cards, Urls(cards)) && i < |rows|
    ensures Placed(cards, rows[i].url, rows[i].cards, at)
    ensures if "archives/business-knowledge/" <= rows[i].url then rows[i].sourceClass == T3Practitioner
            else forall c :: c in rows[i].cards ==> classOf(c.sourceType) == rows[i].sourceClass
    ensures rows[i].concentrated <==> |rows[i].cards| * 10 >= |cards|
  {
    assert IsRow(classOf, cards, rows[i]);
    at := GroupAt(cards, rows[i].url);
    var g := Group(cards, rows[i].url);
    assert !Conflicting(classOf, cards, rows[i].url);
    assert g[0] in g;
  }

  /** The cards of the source are those at these places, in order. */
  ghost predicate Placed(cards: seq<Card>, url: string, g: seq<Card>, at: seq<nat>) {
    && |at| == |g|
    && (forall m :: 0 <= m < |at| ==> at[m] < |cards| && g[m] == cards[at[m]])
    && (forall m, n :: 0 <= m < n < |at| ==> at[m] < at[n])
    && (forall k: nat :: k < |cards| ==> (k in at <==> cards[k].sourceUrl == url))
  }

  lemma PlacedSnoc(cards: seq<Card>, url: string, g: seq<Card>, at: seq<nat>, card: Card)
    requires Placed(cards, url, g, at)
    ensures if card.sourceUrl == url then Placed(cards + [card], url, g + [card], at + [|cards|])
            else Placed(cards + [card], url, g, at)
  {
    forall k: nat | k < |cards| ensures k in at + [|cards|] <==> k in at {}
  }

  lemma GroupGrows(front: seq<Card>, last: Card, url: string)
    ensures Group(front + [last], url) ==
            if last.sourceUrl == url then Group(front, url) + [last] else Group(front, url)
  {
    GroupSnoc(front, last, url);
  }

  lemma {:induction false} GroupAt(cards: seq<Card>, url: string) returns (at: seq<nat>)
    ensures Placed(cards, url, Group(cards, url), at)
  {
    if cards == [] {
      at := [];
    } else {
      var front, last := cards[..|cards| - 1], cards[|cards| - 1];
      var before := GroupAt(front, url);
      assert cards == front + [last];
      PlacedSnoc(front, url, Group(front, url), before, last);
      GroupGrows(front, last, url);
      at := if last.sourceUrl == url then before + [|front|] else before;
    }
  }

  function Flagged(rows: seq<Row>): nat {
    if rows == [] then 0 else Flagged(rows[..|rows| - 1]) + (if rows[|rows| - 1].concentrated then 1 else 0)
  }

  ghost function FlaggedAt(rows: seq<Row>): set<int> {
    set i | 0 <= i < |rows| && rows[i].concentrated
  }

  lemma {:induction false} FlaggedExactly(rows: seq<Row>)
    ensures Flagged(rows) == |FlaggedAt(rows)|
  {
    if rows != [] {
      var front := rows[..|rows| - 1];
      FlaggedExactly(front);
      assert FlaggedAt(rows) == FlaggedAt(front) + (if rows[|rows| - 1].concentrated then {|rows| - 1} else {});
    }
  }

  lemma {:induction false} FlaggedWeigh(rows: seq<Row>, whole: nat)
    requires forall i :: 0 <= i < |rows| ==> (rows[i].concentrated <==> Concentrated(|rows[i].cards|, whole))
    ensures Flagged(rows) * whole <= 10 * Total(rows)
  {
    if rows != [] {
      FlaggedWeigh(rows[..|rows| - 1], whole);
      var k := Flagged(rows[..|rows| - 1]);
      assert (k + 1) * whole == k * whole + whole;
    }
  }

  lemma {:induction false} FlaggedAtMostTotal(rows: seq<Row>)
    requires forall i :: 0 <= i < |rows| ==> rows[i].cards != []
    ensures Flagged(rows) <= Total(rows)
  {
    if rows != [] {
      FlaggedAtMostTotal(rows[..|rows| - 1]);
    }
  }

  /** However large the corpus, at most ten sources can be flagged as concentrated. */
  lemma AtMostTenConcentrated(classOf: string -> SourceClass, cards: seq<Card>, rows: seq<Row>)
    requires Sorted(rows) && Complete(classOf, cards, rows, Urls(cards))
    ensures |FlaggedAt(rows)| <= 10
  {
    FlaggedExactly(rows);
    InventoryPartitions(classOf, cards, rows);
    FlaggedWeigh(rows, |cards|);
    FlaggedAtMostTotal(rows);
    if cards != [] && Flagged(rows) > 10 {
      MoreThanTen(Flagged(rows), |cards|);
    }
  }

  lemma MoreThanTen(k: nat, whole: nat)
    requires k > 10 && whole > 0
    ensures k * whole > 10 * whole
  {
    var extra := k - 10;
    assert k * whole == 10 * whole + extra * whole;
    assert extra * whole > 0;
  }
}
