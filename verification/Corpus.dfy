/** Bringing the generated scenario corpus on disk into line with the list of cards. */
module Corpus {
  import opened Common
  import opened Numbers

  datatype Card = Card(
    slug: string,
    agents: seq<string>,
    triggers: seq<string>,
    localFileExists: bool,
    body: string)

  datatype Problem =
    | DuplicateSlug
    | BadSlug(slug: string)
    | NoAgents(slug: string)
    | NoTriggers(slug: string)
    | NoLocalFile(slug: string)
    | BadShape(file: string)

  /** `slug_to_filename` */
  function FileName(index: nat, slug: string): string {
    Fmt(index) + "-" + slug + ".md"
  }

  predicate KebabChar(c: char) {
    'a' <= c <= 'z' || IsDigit(c) || c == '-'
  }

  /** What the generator takes for granted about the interpreter and the templates: which characters
      match `\d` (at least the ASCII digits), how a card is rendered, and which texts pass the shape
      check. */
  datatype Tools = Tools(digit: char -> bool, render: Card -> string, wellShaped: string -> bool) {
    ghost predicate Valid() {
      forall c :: IsDigit(c) ==> digit(c)
    }
  }

  /** `bk\d{3}-[a-z0-9-]+` in full. */
  predicate SlugShape(tools: Tools, s: string) {
    |s| >= 7 && s[0] == 'b' && s[1] == 'k'
    && tools.digit(s[2]) && tools.digit(s[3]) && tools.digit(s[4]) && s[5] == '-'
    && forall i :: 6 <= i < |s| ==> KebabChar(s[i])
  }

  /** `\d{3}-bk\d{3}-[a-z0-9-]+\.md` in full: a file this generator takes for its own. */
  predicate Generated(tools: Tools, name: string) {
    |name| >= 14 && tools.digit(name[0]) && tools.digit(name[1]) && tools.digit(name[2]) && name[3] == '-'
    && name[|name| - 3..] == ".md" && SlugShape(tools, name[4..|name| - 3])
  }

  // ---------------------------------------------------------------- validation

  function CardProblem(tools: Tools, c: Card): Option<Problem> {
    if !SlugShape(tools, c.slug) then Some(BadSlug(c.slug))
    else if c.agents == [] then Some(NoAgents(c.slug))
    else if c.triggers == [] then Some(NoTriggers(c.slug))
    else if !c.localFileExists then Some(NoLocalFile(c.slug))
    else None
  }

  ghost predicate ThreeOf(tools: Tools, d: string) {
    |d| == 3 && forall i :: 0 <= i < 3 ==> tools.digit(d[i])
  }

  /** At least one lower-case letter, digit or dash, and nothing else. */
  ghost predicate Kebab(k: string) {
    k != "" && forall i :: 0 <= i < |k| ==> 'a' <= k[i] <= 'z' || '0' <= k[i] <= '9' || k[i] == '-'
  }

  ghost predicate SlugOf(tools: Tools, s: string, e: string, k: string) {
    s == "bk" + e + "-" + k && ThreeOf(tools, e) && Kebab(k)
  }

  lemma SlugExactly(tools: Tools, s: string)
    ensures SlugShape(tools, s) <==> exists e, k :: SlugOf(tools, s, e, k)
  {
    if SlugShape(tools, s) {
      assert s == "bk" + s[2..5] + "-" + s[6..];
      assert SlugOf(tools, s, s[2..5], s[6..]);
    }
    if e, k :| SlugOf(tools, s, e, k) {
      assert forall i :: 0 <= i < 3 ==> s[2 + i] == e[i];
      assert forall i :: 0 <= i < |k| ==> s[6 + i] == k[i];
    }
  }

  /** The generator takes for its own exactly the names of three digits, a dash, a slug and ".md". */
  lemma GeneratedExactly(tools: Tools, name: string)
    ensures Generated(tools, name) <==>
            exists d, slug ::
              name == d + "-" + slug + ".md" && ThreeOf(tools, d) && exists e, k :: SlugOf(tools, slug, e, k)
  {
    if Generated(tools, name) {
      var d, slug := name[..3], name[4..|name| - 3];
      SlugExactly(tools, slug);
      assert name == d + "-" + slug + ".md" && ThreeOf(tools, d);
    }
    if d, slug :| name == d + "-" + slug + ".md" && ThreeOf(tools, d) && exists e, k :: SlugOf(tools, slug, e, k) {
      SlugExactly(tools, slug);
      assert name[4..|name| - 3] == slug && forall i :: 0 <= i < 3 ==> name[i] == d[i];
      assert name[|name| - 3..] == ".md";
    }
  }

  /** The first of a card's faults, in the order they are looked for. */
  lemma CardProblemExactly(tools: Tools, c: Card)
    ensures
      var slugged := exists e, k :: SlugOf(tools, c.slug, e, k);
      && (CardProblem(tools, c) == Some(BadSlug(c.slug)) <==> !slugged)
      && (CardProblem(tools, c) == Some(NoAgents(c.slug)) <==> slugged && c.agents == [])
      && (CardProblem(tools, c) == Some(NoTriggers(c.slug)) <==> slugged && c.agents != [] && c.triggers == [])
      && (CardProblem(tools, c) == Some(NoLocalFile(c.slug)) <==>
            slugged && c.agents != [] && c.triggers != [] && !c.localFileExists)
      && (CardProblem(tools, c).None? <==> slugged && c.agents != [] && c.triggers != [] && c.localFileExists)
  {
    SlugExactly(tools, c.slug);
  }

  predicate DistinctSlugs(cards: seq<Card>) {
    forall i, j :: 0 <= i < j < |cards| ==> cards[i].slug != cards[j].slug
  }

  /** `validate_cards`: nothing, or the first problem in the order the checks are made. */
  method ValidateCards(tools: Tools, cards: seq<Card>) returns (r: Option<Problem>)
    ensures r.None? <==> DistinctSlugs(cards) && forall i :: 0 <= i < |cards| ==> CardProblem(tools, cards[i]).None?
    ensures r == Some(DuplicateSlug) <==> !DistinctSlugs(cards)
    ensures r.Some? && DistinctSlugs(cards) ==> exists i ::
              && 0 <= i < |cards| && CardProblem(tools, cards[i]) == r
              && forall j :: 0 <= j < i ==> CardProblem(tools, cards[j]).None?
  {
    var slugs := Slugs(cards);
    SlugCount(cards);
    if |slugs| != |cards| {
      return Some(DuplicateSlug);
    }
    for i := 0 to |cards|
      invariant forall j :: 0 <= j < i ==> CardProblem(tools, cards[j]).None?
    {
      var p := CardProblem(tools, cards[i]);
      if p.Some? {
        return p;
      }
    }
    return None;
  }

  function Slugs(cards: seq<Card>): set<string> {
    set i | 0 <= i < |cards| :: cards[i].slug
  }

  lemma SlugsSnoc(cards: seq<Card>, card: Card)
    ensures Slugs(cards + [card]) == Slugs(cards) + {card.slug}
  {
    var longer := cards + [card];
    assert longer[|cards|] == card;
    forall x | x in Slugs(cards) ensures x in Slugs(longer) {
      var i :| 0 <= i < |cards| && cards[i].slug == x;
      assert longer[i].slug == x;
    }
  }

  lemma DistinctSnoc(cards: seq<Card>, card: Card)
    ensures DistinctSlugs(cards + [card]) <==> DistinctSlugs(cards) && card.slug !in Slugs(cards)
  {
    var longer := cards + [card];
    assert longer[|cards|] == card;
    assert forall i :: 0 <= i < |cards| ==> longer[i] == cards[i];
    if card.slug in Slugs(cards) {
      var i :| 0 <= i < |cards| && cards[i].slug == card.slug;
      assert longer[i].slug == longer[|cards|].slug;
    } else {
      forall i | 0 <= i < |cards| ensures longer[i].slug != card.slug {
        assert cards[i].slug in Slugs(cards);
      }
    }
    if DistinctSlugs(longer) {
      forall i, j | 0 <= i < j < |cards| ensures cards[i].slug != cards[j].slug {
        assert longer[i].slug != longer[j].slug;
      }
    }
  }

  lemma {:induction false} SlugCount(cards: seq<Card>)
    ensures |Slugs(cards)| <= |cards| && (|Slugs(cards)| == |cards| <==> DistinctSlugs(cards))
  {
    if cards != [] {
      var front, last := cards[..|cards| - 1], cards[|cards| - 1];
      assert cards == front + [last];
      SlugCount(front);
      SlugsSnoc(front, last);
      DistinctSnoc(front, last);
    }
  }

  // ---------------------------------------------------------------- the written state

  type Files = map<string, string>

  function Names(cards: seq<Card>): (names: seq<string>)
    ensures |names| == |cards|
    ensures forall i :: 0 <= i < |cards| ==> names[i] == Fmt(i + 1) + "-" + cards[i].slug + ".md"
  {
    seq(|cards|, i requires 0 <= i < |cards| => FileName(i + 1, cards[i].slug))
  }

  function WriteAll(files: Files, names: seq<string>, tools: Tools, cards: seq<Card>): Files
    requires |names| == |cards|
  {
    if cards == [] then files
    else
      var last := |cards| - 1;
      WriteAll(files, names[..last], tools, cards[..last])[names[last] := tools.render(cards[last])]
  }

  function Pruned(files: Files, tools: Tools, expected: seq<string>): Files {
    map name | name in files && (Generated(tools, name) ==> name in expected) :: files[name]
  }

  /** The markdown directory after a run: stale generated files gone, every card written, and the
      directory's README rewritten. */
  function Synced(files: Files, tools: Tools, cards: seq<Card>, readme: string): Files {
    WriteAll(Pruned(files, tools, Names(cards)), Names(cards), tools, cards)["README.md" := readme]
  }

  lemma {:induction false} WriteAllEffect(files: Files, names: seq<string>, tools: Tools, cards: seq<Card>)
    requires |names| == |cards| && Distinct(names)
    ensures forall n :: n in WriteAll(files, names, tools, cards) <==> n in files || n in names
    ensures forall i :: 0 <= i < |cards| ==> WriteAll(files, names, tools, cards)[names[i]] == tools.render(cards[i])
    ensures forall n :: n in files && n !in names ==> WriteAll(files, names, tools, cards)[n] == files[n]
  {
    if cards != [] {
      var last := |cards| - 1;
      var front := names[..last];
      WriteAllEffect(files, front, tools, cards[..last]);
      assert names == front + [names[last]];
      assert forall n :: n in names <==> n in front || n == names[last];
      forall i | 0 <= i < last
        ensures WriteAll(files, names, tools, cards)[names[i]] == tools.render(cards[i])
      {
        assert front[i] == names[i] && cards[..last][i] == cards[i] && names[i] != names[last];
      }
    }
  }

  lemma OneDashAfterDigits(s: string, d: string, x: string, e: string, y: string)
    requires AllDigits(d) && AllDigits(e) && s == d + x == e + y
    requires x != [] && y != [] && x[0] == '-' && y[0] == '-'
    ensures |d| == |e|
  {
    assert s[|d|] == '-' && s[|e|] == '-';
    assert forall k :: 0 <= k < |d| ==> IsDigit(s[k]);
    assert forall k :: 0 <= k < |e| ==> s[k] == e[k];
  }

  lemma FileNamesDiffer(i: nat, x: string, j: nat, y: string)
    requires FileName(i, x) == FileName(j, y)
    ensures i == j && x == y
  {
    var a, b := FileName(i, x), FileName(j, y);
    OneDashAfterDigits(a, Fmt(i), "-" + x + ".md", Fmt(j), "-" + y + ".md");
    var w := |Fmt(i)|;
    assert a[..w] == Fmt(i) && b[..w] == Fmt(j);
    FmtInjective(i, j);
    assert a[w + 1..|a| - 3] == x && b[w + 1..|b| - 3] == y;
  }

  lemma NamesAreDistinct(cards: seq<Card>)
    ensures Distinct(Names(cards)) && "README.md" !in Names(cards)
  {
    forall i, j | 0 <= i < j < |cards| ensures Names(cards)[i] != Names(cards)[j] {
      if Names(cards)[i] == Names(cards)[j] {
        FileNamesDiffer(i + 1, cards[i].slug, j + 1, cards[j].slug);
      }
    }
    forall i | 0 <= i < |cards| ensures Names(cards)[i] != "README.md" {
      assert Names(cards)[i][0] == Fmt(i + 1)[0];
    }
  }

  /** What a run leaves: every card's text under its own name, the README, and every file that is
      neither of these nor of the generator's shape exactly as it was. */
  lemma SyncedContents(files: Files, tools: Tools, cards: seq<Card>, readme: string)
    ensures
      var after := Synced(files, tools, cards, readme);
      && (forall i :: 0 <= i < |cards| ==> Names(cards)[i] in after && after[Names(cards)[i]] == tools.render(cards[i]))
      && "README.md" in after && after["README.md"] == readme
      && (forall n :: n in after ==> n in files || n in Names(cards) || n == "README.md")
      && (forall n :: n !in Names(cards) && n != "README.md" ==>
            (n in after <==> n in files && !Generated(tools, n)) && (n in after ==> after[n] == files[n]))
  {
    NamesAreDistinct(cards);
    WriteAllEffect(Pruned(files, tools, Names(cards)), Names(cards), tools, cards);
  }

  /** Running twice changes nothing more. */
  lemma SyncIsIdempotent(files: Files, tools: Tools, cards: seq<Card>, readme: string)
    ensures Synced(Synced(files, tools, cards, readme), tools, cards, readme) == Synced(files, tools, cards, readme)
  {
    var once := Synced(files, tools, cards, readme);
    var twice := Synced(once, tools, cards, readme);
    SyncedContents(files, tools, cards, readme);
    SyncedContents(once, tools, cards, readme);
    forall n ensures n in once <==> n in twice {}
    forall n | n in once ensures once[n] == twice[n] {
      if n in Names(cards) {
        var i :| 0 <= i < |cards| && Names(cards)[i] == n;
      }
    }
    assert once.Keys == twice.Keys;
    assert once == twice;
  }

  lemma NameIsGenerated(tools: Tools, index: nat, slug: string)
    requires tools.Valid() && SlugShape(tools, slug)
    ensures Generated(tools, FileName(index, slug)) <==> index <= 999
  {
    ThreeDigits(index);
    var name := FileName(index, slug);
    if index <= 999 {
      assert name[..3] == Fmt(index) && name[3] == '-';
      assert forall i :: 0 <= i < 3 ==> name[i] == Fmt(index)[i];
      assert name[4..|name| - 3] == slug;
      assert name[|name| - 3..] == ".md";
    } else {
      assert name[3] == Fmt(index)[3];
    }
  }

  /** The generator's own files on disk are exactly the expected ones, from any directory whatever,
      exactly when no card needs a four-digit index. */
  lemma GeneratedFilesAreExpectedUpTo999(files: Files, tools: Tools, cards: seq<Card>, readme: string)
    requires tools.Valid() && forall i :: 0 <= i < |cards| ==> SlugShape(tools, cards[i].slug)
    ensures
      var after := Synced(files, tools, cards, readme);
      (forall n :: n in after && Generated(tools, n) <==> n in Names(cards)) <==> |cards| <= 999
  {
    var after := Synced(files, tools, cards, readme);
    SyncedContents(files, tools, cards, readme);
    if |cards| <= 999 {
      forall n ensures n in after && Generated(tools, n) <==> n in Names(cards) {
        if n in Names(cards) {
          var i :| 0 <= i < |cards| && Names(cards)[i] == n;
          NameIsGenerated(tools, i + 1, cards[i].slug);
        }
      }
    } else {
      var n := Names(cards)[999];
      NameIsGenerated(tools, 1000, cards[999].slug);
      assert n in Names(cards) && !Generated(tools, n);
    }
  }

  // ---------------------------------------------------------------- mirrors and indexes

  /** A row of the JSON mirror or of an agent's index; `lens` marks the manager's decision view. */
  datatype JsonRow = JsonRow(id: string, markdown: string, lens: bool)

  const MANAGER := "manager_coo"

  /** `SCENARIOS.index(card)` */
  function IndexOf(cards: seq<Card>, c: Card): (i: nat)
    requires c in cards
    ensures i < |cards| && cards[i] == c && c !in cards[..i]
  {
    if cards[0] == c then 0
    else
      assert c in cards[1..];
      var i := IndexOf(cards[1..], c);
      assert cards[..i + 1] == [cards[0]] + cards[1..][..i];
      i + 1
  }

  function JsonOf(cards: seq<Card>, c: Card, lens: bool): JsonRow
    requires c in cards
  {
    JsonRow(c.slug, FileName(IndexOf(cards, c) + 1, c.slug), lens)
  }

  /** With distinct slugs every row points at the markdown file written for its own card. */
  lemma PointerNamesTheCardsFile(cards: seq<Card>, i: nat, lens: bool)
    requires DistinctSlugs(cards) && i < |cards|
    ensures JsonOf(cards, cards[i], lens).markdown == Names(cards)[i]
  {
    var k := IndexOf(cards, cards[i]);
    assert cards[k].slug == cards[i].slug;
  }

  function AgentRows(cards: seq<Card>, c: Card, targets: seq<string>, agent: string): seq<JsonRow>
    requires c in cards
  {
    if targets == [] then []
    else AgentRows(cards, c, targets[..|targets| - 1], agent)
         + (if targets[|targets| - 1] == agent then [JsonOf(cards, c, agent == MANAGER)] else [])
  }

  /** The rows of one agent's index over the first `n` cards. */
  function IndexRows(cards: seq<Card>, n: nat, agent: string): seq<JsonRow>
    requires n <= |cards|
  {
    if n == 0 then [] else IndexRows(cards, n - 1, agent) + AgentRows(cards, cards[n - 1], cards[n - 1].agents, agent)
  }

  function Agents(cards: seq<Card>): set<string> {
    set i, k | 0 <= i < |cards| && 0 <= k < |cards[i].agents| :: cards[i].agents[k]
  }

  function GetRows(m: map<string, seq<JsonRow>>, agent: string): seq<JsonRow> {
    if agent in m then m[agent] else []
  }

  lemma {:induction false} AgentRowsEmpty(cards: seq<Card>, c: Card, targets: seq<string>, agent: string)
    requires c in cards
    ensures AgentRows(cards, c, targets, agent) == [] <==> agent !in targets
  {
    if targets != [] {
      AgentRowsEmpty(cards, c, targets[..|targets| - 1], agent);
      assert targets == targets[..|targets| - 1] + [targets[|targets| - 1]];
    }
  }

  /** An agent has an index exactly when some card targets it. */
  lemma {:induction false} IndexRowsEmpty(cards: seq<Card>, n: nat, agent: string)
    requires n <= |cards|
    ensures IndexRows(cards, n, agent) == [] <==> forall i :: 0 <= i < n ==> agent !in cards[i].agents
  {
    if n > 0 {
      IndexRowsEmpty(cards, n - 1, agent);
      assert AgentRows(cards, cards[n - 1], cards[n - 1].agents, agent) == [] <==> agent !in cards[n - 1].agents by {
        AgentRowsEmpty(cards, cards[n - 1], cards[n - 1].agents, agent);
      }
    }
  }

  /** The row of card `i` in a listing: its slug, the file written for it, and whether it is the manager's
      view of it. */
  function RowAt(cards: seq<Card>, i: nat, lens: bool): JsonRow
    requires i < |cards|
  {
    JsonRow(cards[i].slug, Fmt(i + 1) + "-" + cards[i].slug + ".md", lens)
  }

  predicate Earlier(a: (nat, nat), b: (nat, nat)) {
    a.0 < b.0 || (a.0 == b.0 && a.1 < b.1)
  }

  /** Card `i` names the agent as its target `k`. */
  predicate Targets(cards: seq<Card>, i: nat, k: nat, agent: string) {
    i < |cards| && k < |cards[i].agents| && cards[i].agents[k] == agent
  }

  /** One row for each naming of the agent before this place, in order, and no others. */
  ghost predicate RowsFor(cards: seq<Card>, agent: string, rows: seq<JsonRow>, at: seq<(nat, nat)>, upto: (nat, nat)) {
    && |at| == |rows|
    && (forall m :: 0 <= m < |at| ==>
          && Earlier(at[m], upto) && Targets(cards, at[m].0, at[m].1, agent)
          && rows[m] == RowAt(cards, at[m].0, agent == "manager_coo"))
    && (forall m, n :: 0 <= m < n < |at| ==> Earlier(at[m], at[n]))
    && (forall i: nat, k: nat :: Targets(cards, i, k, agent) && Earlier((i, k), upto) ==> (i, k) in at)
  }

  lemma NextNaming(cards: seq<Card>, agent: string, rows: seq<JsonRow>, at: seq<(nat, nat)>, i: nat, k: nat)
    requires i < |cards| && k < |cards[i].agents| && RowsFor(cards, agent, rows, at, (i, k))
    requires cards[i].agents[k] == agent
    ensures RowsFor(cards, agent, rows + [RowAt(cards, i, agent == "manager_coo")], at + [(i, k)], (i, k + 1))
  {
    var longer := at + [(i, k)];
    assert longer[|at|] == (i, k);
    forall j: nat, l: nat | Targets(cards, j, l, agent) && Earlier((j, l), (i, k + 1)) ensures (j, l) in longer {
      assert (j, l) != (i, k) ==> Earlier((j, l), (i, k)) && (j, l) in at;
    }
  }

  lemma OtherNaming(cards: seq<Card>, agent: string, rows: seq<JsonRow>, at: seq<(nat, nat)>, i: nat, k: nat)
    requires i < |cards| && k < |cards[i].agents| && RowsFor(cards, agent, rows, at, (i, k))
    requires cards[i].agents[k] != agent
    ensures RowsFor(cards, agent, rows, at, (i, k + 1))
  {
    forall j: nat, l: nat | Targets(cards, j, l, agent) && Earlier((j, l), (i, k + 1)) ensures (j, l) in at {
      assert Earlier((j, l), (i, k));
    }
  }

  lemma {:induction false} CardRows(cards: seq<Card>, agent: string, i: nat, k: nat) returns (at: seq<(nat, nat)>)
    requires DistinctSlugs(cards) && i < |cards| && k <= |cards[i].agents|
    ensures RowsFor(cards, agent, IndexRows(cards, i, agent) + AgentRows(cards, cards[i], cards[i].agents[..k], agent),
                    at, (i, k))
    decreases i, k, 1
  {
    var earlier := IndexRows(cards, i, agent);
    if k == 0 {
      at := IndexRowsExactly(cards, i, agent);
      assert earlier + [] == earlier;
    } else {
      at := CardRows(cards, agent, i, k - 1);
      var rows := AgentRows(cards, cards[i], cards[i].agents[..k - 1], agent);
      assert cards[i].agents[..k][..k - 1] == cards[i].agents[..k - 1];
      PointerNamesTheCardsFile(cards, i, agent == MANAGER);
      if cards[i].agents[k - 1] == agent {
        NextNaming(cards, agent, earlier + rows, at, i, k - 1);
        at := at + [(i, k - 1)];
        assert earlier + rows + [RowAt(cards, i, agent == "manager_coo")]
          == earlier + (rows + [RowAt(cards, i, agent == "manager_coo")]);
      } else {
        OtherNaming(cards, agent, earlier + rows, at, i, k - 1);
        assert rows + [] == rows;
      }
    }
  }

  /** An agent's index over the first cards has, in order, one row for each time one of them names the
      agent, which points at that card's file and is a decision view exactly in the manager's index. */
  lemma {:induction false} IndexRowsExactly(cards: seq<Card>, n: nat, agent: string) returns (at: seq<(nat, nat)>)
    requires DistinctSlugs(cards) && n <= |cards|
    ensures RowsFor(cards, agent, IndexRows(cards, n, agent), at, (n, 0))
    decreases n, 0, 0
  {
    if n == 0 {
      at := [];
    } else {
      var k := |cards[n - 1].agents|;
      at := CardRows(cards, agent, n - 1, k);
      assert cards[n - 1].agents[..k] == cards[n - 1].agents;
      forall i: nat, l: nat | Targets(cards, i, l, agent) && Earlier((i, l), (n, 0)) ensures (i, l) in at {
        assert Earlier((i, l), (n - 1, k));
      }
    }
  }

  /** Every index row is about a card that targets the agent, points at that card's file, and is a
      decision view exactly in the manager's index. */
  lemma IndexRowsAgree(cards: seq<Card>, n: nat, agent: string, row: JsonRow)
    requires DistinctSlugs(cards) && n <= |cards|
    ensures row in IndexRows(cards, n, agent) <==>
            exists i :: 0 <= i < n && agent in cards[i].agents && row == RowAt(cards, i, agent == "manager_coo")
  {
    var at := IndexRowsExactly(cards, n, agent);
    var rows := IndexRows(cards, n, agent);
    if i :| 0 <= i < n && agent in cards[i].agents && row == RowAt(cards, i, agent == "manager_coo") {
      var k :| 0 <= k < |cards[i].agents| && cards[i].agents[k] == agent;
      assert Targets(cards, i, k, agent) && Earlier((i, k), (n, 0));
      var m :| 0 <= m < |at| && at[m] == (i, k);
      assert rows[m] == row;
    }
  }

  /** The mirror has one full row per card, in order. */
  lemma MirrorExactly(cards: seq<Card>, i: nat)
    requires DistinctSlugs(cards) && i < |cards|
    ensures |Mirror(cards)| == |cards| && Mirror(cards)[i] == RowAt(cards, i, false)
  {
    PointerNamesTheCardsFile(cards, i, false);
  }

  // ---------------------------------------------------------------- the run

  datatype Counts = Counts(agentIndexes: nat, cards: nat, jsonlRows: nat, markdownFiles: nat)
  datatype Run = Refused(problem: Problem) | Done(counts: Counts)

  class Output {
    var markdown: Files
    var jsonl: seq<JsonRow>
    var indexes: map<string, seq<JsonRow>>

    constructor (markdown: Files)
      ensures this.markdown == markdown && jsonl == [] && indexes == map[]
    {
      this.markdown, jsonl, indexes := markdown, [], map[];
    }

    /** Unlink every generated file that is no longer expected. */
    method Prune(tools: Tools, expected: seq<string>)
      modifies this`markdown
      ensures markdown == Pruned(old(markdown), tools, expected)
    {
      var found := set n | n in markdown && EndsInMd(n);
      while found != {}
        invariant markdown.Keys <= old(markdown).Keys
        invariant forall n :: n in markdown ==> markdown[n] == old(markdown)[n]
        invariant forall n :: n in old(markdown) && n !in markdown ==> Generated(tools, n) && n !in expected
        invariant forall n :: n in markdown && Generated(tools, n) && n !in expected ==> n in found
        decreases found
      {
        var n :| n in found;
        found := found - {n};
        if Generated(tools, n) && n !in expected {
          markdown := markdown - {n};
        }
      }
    }

    method WriteMarkdown(tools: Tools, cards: seq<Card>, names: seq<string>)
      requires |names| == |cards|
      modifies this`markdown
      ensures markdown == WriteAll(old(markdown), names, tools, cards)
    {
      for i := 0 to |cards|
        invariant markdown == WriteAll(old(markdown), names[..i], tools, cards[..i])
      {
        assert names[..i + 1][..i] == names[..i] && cards[..i + 1][..i] == cards[..i];
        markdown := markdown[names[i] := tools.render(cards[i])];
      }
      assert names[..|names|] == names && cards[..|cards|] == cards;
    }

    /** Everything past validation and rendering. */
    method Commit(tools: Tools, cards: seq<Card>, names: seq<string>, readme: string) returns (counts: Counts)
      requires names == Names(cards)
      modifies this
      ensures counts == DryCounts(cards)
      ensures markdown == Synced(old(markdown), tools, cards, readme)
      ensures jsonl == Mirror(cards)
      ensures Indexed(old(indexes), indexes, cards)
    {
      Prune(tools, names);
      WriteMarkdown(tools, cards, names);
      jsonl := Mirror(cards);
      var written := WriteIndexes(cards);
      markdown := markdown["README.md" := readme];
      counts := Counts(written, |cards|, |cards|, |cards|);
    }

    method WriteIndexes(cards: seq<Card>) returns (written: nat)
      modifies this`indexes
      ensures Indexed(old(indexes), indexes, cards) && written == |Agents(cards)|
    {
      var byAgent := GroupByAgent(cards);
      IndexedAfter(indexes, byAgent, cards);
      indexes := indexes + byAgent;
      written := |byAgent.Keys|;
    }

    /** `write_outputs`: refuses before touching anything; a dry run reports the counts that a real
        run would. */
    method WriteOutputs(tools: Tools, cards: seq<Card>, readme: string, checkOnly: bool) returns (r: Run)
      modifies this
      ensures r.Refused? || checkOnly ==> unchanged(this)
      ensures r.Refused? <==> Unacceptable(tools, cards)
      ensures r.Done? ==> r.counts == DryCounts(cards)
      ensures r.Done? && !checkOnly ==> markdown == Synced(old(markdown), tools, cards, readme)
      ensures r.Done? && !checkOnly ==> jsonl == Mirror(cards) && Indexed(old(indexes), indexes, cards)
    {
      var problem := ValidateCards(tools, cards);
      if problem.Some? {
        return Refused(problem.value);
      }
      var names: seq<string> := [];
      for i := 0 to |cards|
        invariant names == Names(cards)[..i]
        invariant forall j :: 0 <= j < i ==> tools.wellShaped(tools.render(cards[j]))
      {
        if !tools.wellShaped(tools.render(cards[i])) {
          return Refused(BadShape(FileName(i + 1, cards[i].slug)));
        }
        names := names + [FileName(i + 1, cards[i].slug)];
      }
      assert names == Names(cards);
      if checkOnly {
        return Done(DryCounts(cards));
      }
      var counts := Commit(tools, cards, names, readme);
      r := Done(counts);
    }
  }

  /** Something a run raises on: repeated slugs, a bad card, or a rendering of the wrong shape. */
  ghost predicate Unacceptable(tools: Tools, cards: seq<Card>) {
    !DistinctSlugs(cards) || exists i ::
      0 <= i < |cards| && (CardProblem(tools, cards[i]).Some? || !tools.wellShaped(tools.render(cards[i])))
  }

  /** The counts of a dry run: one index per agent that any card names. */
  function DryCounts(cards: seq<Card>): Counts {
    Counts(|Agents(cards)|, |cards|, |cards|, |cards|)
  }

  function Mirror(cards: seq<Card>): seq<JsonRow> {
    seq(|cards|, i requires 0 <= i < |cards| => JsonOf(cards, cards[i], false))
  }

  /** Every targeted agent's index rewritten; the index of an agent no card names any more stays. */
  ghost predicate Indexed(before: map<string, seq<JsonRow>>, after: map<string, seq<JsonRow>>, cards: seq<Card>) {
    && after.Keys == before.Keys + Agents(cards)
    && (forall a :: a in Agents(cards) ==> after[a] == IndexRows(cards, |cards|, a))
    && (forall a :: a in before && a !in Agents(cards) ==> after[a] == before[a])
  }

  /** After a run every index on disk belongs to an agent that some card names exactly if the same was
      true before it: the index of an agent no card names any more is neither rewritten nor removed. */
  lemma StaleIndexesStayExactly(before: map<string, seq<JsonRow>>, after: map<string, seq<JsonRow>>, cards: seq<Card>)
    requires Indexed(before, after, cards)
    ensures (forall a :: a in after ==> a in Agents(cards)) <==> before.Keys <= Agents(cards)
    ensures forall a :: a in before && a !in Agents(cards) ==> a in after && after[a] == before[a]
  {
    forall a | a in before ensures a in after {
      assert a in after.Keys;
    }
    forall a | a in after && a !in Agents(cards) ensures a in before {
      assert a in after.Keys;
    }
  }

  lemma IndexedAfter(before: map<string, seq<JsonRow>>, byAgent: map<string, seq<JsonRow>>, cards: seq<Card>)
    requires byAgent.Keys == Agents(cards) && forall a :: a in byAgent ==> byAgent[a] == IndexRows(cards, |cards|, a)
    ensures Indexed(before, before + byAgent, cards)
  {
  }

  predicate EndsInMd(n: string) {
    |n| >= 3 && n[|n| - 3..] == ".md"
  }

  ghost predicate Grouped(m: map<string, seq<JsonRow>>, cards: seq<Card>, n: nat)
    requires n <= |cards|
  {
    && (forall a :: GetRows(m, a) == IndexRows(cards, n, a))
    && (forall a :: a in m ==> m[a] != [])
  }

  /** `after` is `before` with the first `k` targets of card `i` entered. */
  ghost predicate Entered(
      before: map<string, seq<JsonRow>>, after: map<string, seq<JsonRow>>, cards: seq<Card>, i: nat, k: nat)
    requires i < |cards| && k <= |cards[i].agents|
  {
    && (forall a :: GetRows(after, a) == GetRows(before, a) + AgentRows(cards, cards[i], cards[i].agents[..k], a))
    && (forall a :: a in after ==> after[a] != [])
  }

  lemma AgentRowsSnoc(cards: seq<Card>, c: Card, targets: seq<string>, next: string, agent: string)
    requires c in cards
    ensures AgentRows(cards, c, targets + [next], agent) ==
            AgentRows(cards, c, targets, agent) + (if next == agent then [JsonOf(cards, c, agent == MANAGER)] else [])
  {
    assert (targets + [next])[..|targets|] == targets;
  }

  lemma EnterOne(before: map<string, seq<JsonRow>>, after: map<string, seq<JsonRow>>, cards: seq<Card>, i: nat, k: nat)
    requires i < |cards| && k < |cards[i].agents| && Entered(before, after, cards, i, k)
    ensures
      var agent := cards[i].agents[k];
      var row := JsonOf(cards, cards[i], agent == MANAGER);
      Entered(before, after[agent := GetRows(after, agent) + [row]], cards, i, k + 1)
  {
    var c := cards[i];
    var agent, targets := c.agents[k], c.agents[..k];
    var row := JsonOf(cards, c, agent == MANAGER);
    var later := after[agent := GetRows(after, agent) + [row]];
    assert c.agents[..k + 1] == targets + [agent];
    forall a ensures GetRows(later, a) == GetRows(before, a) + AgentRows(cards, c, c.agents[..k + 1], a) {
      AgentRowsSnoc(cards, c, targets, agent, a);
      assert GetRows(after, a) == GetRows(before, a) + AgentRows(cards, c, targets, a);
    }
  }

  method EnterCard(
      before: map<string, seq<JsonRow>>, cards: seq<Card>, i: nat)
      returns (after: map<string, seq<JsonRow>>)
    requires i < |cards| && forall a :: a in before ==> before[a] != []
    ensures Entered(before, after, cards, i, |cards[i].agents|)
  {
    var c := cards[i];
    after := before;
    for k := 0 to |c.agents|
      invariant Entered(before, after, cards, i, k)
    {
      EnterOne(before, after, cards, i, k);
      var agent := c.agents[k];
      if agent == MANAGER {
        after := after[agent := GetRows(after, agent) + [JsonOf(cards, c, true)]];
      } else {
        after := after[agent := GetRows(after, agent) + [JsonOf(cards, c, false)]];
      }
    }
  }

  lemma EnteredExtends(before: map<string, seq<JsonRow>>, after: map<string, seq<JsonRow>>, cards: seq<Card>, i: nat)
    requires i < |cards| && Grouped(before, cards, i) && Entered(before, after, cards, i, |cards[i].agents|)
    ensures Grouped(after, cards, i + 1)
  {
    assert cards[i].agents[..|cards[i].agents|] == cards[i].agents;
  }

  /** `cards_by_agent` */
  method GroupByAgent(cards: seq<Card>) returns (byAgent: map<string, seq<JsonRow>>)
    ensures byAgent.Keys == Agents(cards)
    ensures forall a :: a in byAgent ==> byAgent[a] == IndexRows(cards, |cards|, a)
  {
    byAgent := map[];
    for i := 0 to |cards|
      invariant Grouped(byAgent, cards, i)
    {
      ghost var before := byAgent;
      byAgent := EnterCard(byAgent, cards, i);
      EnteredExtends(before, byAgent, cards, i);
    }
    forall a ensures a in byAgent <==> a in Agents(cards) {
      IndexRowsEmpty(cards, |cards|, a);
      assert GetRows(byAgent, a) == IndexRows(cards, |cards|, a);
    }
  }
}
