/** The HTML-to-text machine used for originality comparison: one counter of open suppressing tags
    and a list of collected text. */
module VisibleText {
  import opened Common

  /** A parser callback; tag names are case-folded. */
  datatype Event = StartTag(tag: string) | EndTag(tag: string) | Data(text: string)

  predicate Suppressing(tag: string) {
    tag in {"script", "style", "noscript", "svg"}
  }

  predicate Blank(isSpace: char -> bool, text: string) {
    forall i :: 0 <= i < |text| ==> isSpace(text[i])
  }

  datatype State = State(suppressed: nat, parts: seq<string>)

  function Handle(isSpace: char -> bool, s: State, e: Event): State {
    match e
    case StartTag(tag) => if Suppressing(tag) then s.(suppressed := s.suppressed + 1) else s
    case EndTag(tag) => if Suppressing(tag) && s.suppressed > 0 then s.(suppressed := s.suppressed - 1) else s
    case Data(text) => if s.suppressed == 0 && !Blank(isSpace, text) then s.(parts := s.parts + [text]) else s
  }

  function Fed(isSpace: char -> bool, s: State, es: seq<Event>): State {
    if es == [] then s else Handle(isSpace, Fed(isSpace, s, es[..|es| - 1]), es[|es| - 1])
  }

  /** The parser object both scripts define. */
  class Parser {
    const isSpace: char -> bool
    var suppressed: nat
    var parts: seq<string>

    constructor (isSpace: char -> bool)
      ensures this.isSpace == isSpace && Value() == State(0, [])
    {
      this.isSpace, suppressed, parts := isSpace, 0, [];
    }

    ghost function Value(): State
      reads this
    {
      State(suppressed, parts)
    }

    method HandleStartTag(tag: string)
      modifies this
      ensures Value() == Handle(isSpace, old(Value()), StartTag(tag))
    {
      if Suppressing(tag) {
        suppressed := suppressed + 1;
      }
    }

    method HandleEndTag(tag: string)
      modifies this
      ensures Value() == Handle(isSpace, old(Value()), EndTag(tag))
    {
      if Suppressing(tag) {
        suppressed := Max(0, suppressed - 1);
      }
    }

    method HandleData(data: string)
      modifies this
      ensures Value() == Handle(isSpace, old(Value()), Data(data))
    {
      if suppressed == 0 && !Blank(isSpace, data) {
        parts := parts + [data];
      }
    }

    method Feed(es: seq<Event>)
      modifies this
      ensures Value() == Fed(isSpace, old(Value()), es)
    {
      for i := 0 to |es|
        invariant Value() == Fed(isSpace, old(Value()), es[..i])
      {
        assert es[..i + 1][..i] == es[..i];
        match es[i] {
          case StartTag(tag) => HandleStartTag(tag);
          case EndTag(tag) => HandleEndTag(tag);
          case Data(text) => HandleData(text);
        }
      }
      assert es[..|es|] == es;
    }
  }

  // ---------------------------------------------------------------- the counter is a reflected walk

  function Move(e: Event): int {
    match e
    case StartTag(tag) => if Suppressing(tag) then 1 else 0
    case EndTag(tag) => if Suppressing(tag) then -1 else 0
    case Data(_) => 0
  }

  /** Suppressing tags outer minus closed, going negative when more are closed. */
  function Walk(es: seq<Event>): int {
    if es == [] then 0 else Walk(es[..|es| - 1]) + Move(es[|es| - 1])
  }

  /** The lowest point the walk has reached, the starting point included. */
  function Lowest(es: seq<Event>): (m: int)
    ensures m <= 0 && m <= Walk(es)
  {
    if es == [] then 0 else Min(Lowest(es[..|es| - 1]), Walk(es))
  }

  lemma {:induction false} LowestIsTheMinimum(es: seq<Event>)
    ensures forall i :: 0 <= i <= |es| ==> Lowest(es) <= Walk(es[..i])
    ensures exists i :: 0 <= i <= |es| && Lowest(es) == Walk(es[..i])
  {
    assert es[..|es|] == es;
    if es == [] {
      assert Walk(es[..0]) == 0;
    } else {
      var front := es[..|es| - 1];
      LowestIsTheMinimum(front);
      forall i | 0 <= i <= |es| ensures Lowest(es) <= Walk(es[..i]) {
        if i < |es| {
          assert front[..i] == es[..i];
        }
      }
      var i :| 0 <= i <= |front| && Lowest(front) == Walk(front[..i]);
      assert front[..i] == es[..i];
      if Lowest(es) != Lowest(front) {
        assert Lowest(es) == Walk(es[..|es|]);
      }
    }
  }

  lemma {:induction false} CounterAboveLowest(isSpace: char -> bool, es: seq<Event>)
    ensures Fed(isSpace, State(0, []), es).suppressed == Walk(es) - Lowest(es)
  {
    if es != [] {
      CounterAboveLowest(isSpace, es[..|es| - 1]);
    }
  }

  /** After any event sequence whatever, the clamped counter is the walk's height above the lowest of
      all its prefixes, the empty one included. */
  lemma CounterIsReflectedWalk(isSpace: char -> bool, es: seq<Event>)
    ensures
      var depth := Fed(isSpace, State(0, []), es).suppressed;
      && (forall i :: 0 <= i <= |es| ==> depth >= Walk(es) - Walk(es[..i]))
      && (exists i :: 0 <= i <= |es| && depth == Walk(es) - Walk(es[..i]))
  {
    CounterAboveLowest(isSpace, es);
    LowestIsTheMinimum(es);
  }

  /** Which data is collected: the non-blank pieces that arrive while the walk is at its lowest. */
  function Collected(isSpace: char -> bool, es: seq<Event>): seq<string> {
    if es == [] then []
    else
      var front, e := es[..|es| - 1], es[|es| - 1];
      if e.Data? && !Blank(isSpace, e.text) && Walk(front) == Lowest(front)
      then Collected(isSpace, front) + [e.text] else Collected(isSpace, front)
  }

  lemma {:induction false} PartsAreDataAtLowestPoint(isSpace: char -> bool, es: seq<Event>)
    ensures Fed(isSpace, State(0, []), es).parts == Collected(isSpace, es)
  {
    if es != [] {
      PartsAreDataAtLowestPoint(isSpace, es[..|es| - 1]);
      CounterAboveLowest(isSpace, es[..|es| - 1]);
    }
  }

  // ---------------------------------------------------------------- well-formed documents

  datatype Node = Text(text: string) | Element(tag: string, children: seq<Node>)

  function NodeEvents(node: Node): seq<Event> {
    match node
    case Text(text) => [Data(text)]
    case Element(tag, children) => [StartTag(tag)] + Events(children) + [EndTag(tag)]
  }

  function Events(nodes: seq<Node>): seq<Event> {
    if nodes == [] then [] else NodeEvents(nodes[0]) + Events(nodes[1..])
  }

  /** The text a reader sees: every non-blank piece outside all suppressing elements, in order. */
  function Visible(isSpace: char -> bool, nodes: seq<Node>): seq<string> {
    if nodes == [] then [] else VisibleIn(isSpace, nodes[0]) + Visible(isSpace, nodes[1..])
  }

  function VisibleIn(isSpace: char -> bool, node: Node): seq<string> {
    match node
    case Text(text) => if exists i :: 0 <= i < |text| && !isSpace(text[i]) then [text] else []
    case Element(tag, children) =>
      if tag == "script" || tag == "style" || tag == "noscript" || tag == "svg" then [] else Visible(isSpace, children)
  }

  /** The state after reading visible text, which only an open suppressing element holds back. */
  function Reading(s: State, texts: seq<string>): State {
    if s.suppressed == 0 then State(0, s.parts + texts) else s
  }

  lemma {:induction false} FedConcat(isSpace: char -> bool, s: State, a: seq<Event>, b: seq<Event>)
    ensures Fed(isSpace, s, a + b) == Fed(isSpace, Fed(isSpace, s, a), b)
  {
    if b == [] {
      assert a + b == a;
    } else {
      FedConcat(isSpace, s, a, b[..|b| - 1]);
      assert (a + b)[..|a + b| - 1] == a + b[..|b| - 1];
    }
  }

  lemma FedOne(isSpace: char -> bool, s: State, e: Event)
    ensures Fed(isSpace, s, [e]) == Handle(isSpace, s, e)
  {
    assert [e][..0] == [];
  }

  /** Feeding a document collects exactly its visible text and leaves the counter where it was, at
      whatever depth it is fed. */
  lemma {:induction false} FeedingCollectsVisibleText(isSpace: char -> bool, s: State, nodes: seq<Node>)
    ensures Fed(isSpace, s, Events(nodes)) == Reading(s, Visible(isSpace, nodes))
    decreases nodes, 0
  {
    if nodes == [] {
      assert s.parts + [] == s.parts;
    } else {
      FedConcat(isSpace, s, NodeEvents(nodes[0]), Events(nodes[1..]));
      NodeFeeds(isSpace, s, nodes[0]);
      var mid := Reading(s, VisibleIn(isSpace, nodes[0]));
      FeedingCollectsVisibleText(isSpace, mid, nodes[1..]);
      ReadingTwice(s, VisibleIn(isSpace, nodes[0]), Visible(isSpace, nodes[1..]));
    }
  }

  lemma ReadingTwice(s: State, a: seq<string>, b: seq<string>)
    ensures Reading(Reading(s, a), b) == Reading(s, a + b)
  {
    assert s.parts + a + b == s.parts + (a + b);
  }

  lemma {:induction false} NodeFeeds(isSpace: char -> bool, s: State, node: Node)
    ensures Fed(isSpace, s, NodeEvents(node)) == Reading(s, VisibleIn(isSpace, node))
    decreases node, 1
  {
    match node
    case Text(text) =>
      FedOne(isSpace, s, Data(text));
      assert s.parts + [] == s.parts;
    case Element(tag, children) =>
      var outer := Handle(isSpace, s, StartTag(tag));
      FedOne(isSpace, s, StartTag(tag));
      FedConcat(isSpace, s, [StartTag(tag)], Events(children));
      FeedingCollectsVisibleText(isSpace, outer, children);
      var inside := Reading(outer, Visible(isSpace, children));
      FedConcat(isSpace, s, [StartTag(tag)] + Events(children), [EndTag(tag)]);
      FedOne(isSpace, inside, EndTag(tag));
      assert s.parts + [] == s.parts;
  }
}
