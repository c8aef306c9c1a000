/** How often the events of a document use each style name, and which name is the most used one
    in the sense of `styles_select_top`. */
module StyleUsage {
  import opened Seqs
  import opened Document

  /** The style name of each event, in event order. */
  function StyleNamesOf(events: seq<Event>): seq<string> {
    seq(|events|, i requires 0 <= i < |events| => events[i].style)
  }

  /** Number of events that refer to the style name. */
  function UsageCount(events: seq<Event>, name: string): nat {
    Count(StyleNamesOf(events), name)
  }

  /** Every name passes: the counts dict keeps every style name it meets. */
  predicate AnyName(name: string) {
    true
  }

  /** The keys of the counts dict, in its insertion order: each used style name once, in order
      of its first use. */
  function UsedNames(events: seq<Event>): seq<string> {
    FirstOccurrences(StyleNamesOf(events), AnyName)
  }

  /** `name` is the style name the counts dict yields: some event uses it, no name is used more
      often, and no other name used as often is used first earlier. */
  ghost predicate IsTopStyle(events: seq<Event>, name: string) {
    var used := StyleNamesOf(events);
    && name in used
    && (forall m :: UsageCount(events, m) <= UsageCount(events, name))
    && (forall m :: m in used && UsageCount(events, m) == UsageCount(events, name) ==>
          FirstIndex(used, name) <= FirstIndex(used, m))
  }

  /** The most used style name, with its tie-break, is determined by the events. */
  lemma TopStyleUnique(events: seq<Event>, a: string, b: string)
    requires IsTopStyle(events, a) && IsTopStyle(events, b)
    ensures a == b
  {
    var used := StyleNamesOf(events);
    assert UsageCount(events, a) == UsageCount(events, b);
    assert FirstIndex(used, a) == FirstIndex(used, b);
  }

  /** A document whose events use style "A" twice and "B" once has "A" as its top style. */
  lemma MajorityStyleIsTop(a1: Event, a2: Event, b: Event)
    requires a1.style == "A" && a2.style == "A" && b.style == "B"
    ensures IsTopStyle([a1, a2, b], "A")
  {
    var events := [a1, a2, b];
    var used := StyleNamesOf(events);
    assert used == ["A", "A", "B"];
    assert used[..2] == ["A", "A"] && used[..2][..1] == ["A"] && used[..2][..1][..0] == [];
    forall m
      ensures UsageCount(events, m) == if m == "A" then 2 else if m == "B" then 1 else 0
    {
      assert Count(used[..2][..1], m) == if m == "A" then 1 else 0;
      assert Count(used[..2], m) == if m == "A" then 2 else 0;
    }
    assert FirstIndex(used, "A") == 0;
  }
}
