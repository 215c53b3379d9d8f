/** The scroll handler that highlights the navigation link of the section
    being read: the last section, in document order, whose top is at most
    200 pixels below the scroll offset wins, and exactly the links pointing
    at it are marked active. */
module ScrollSpy {

  /** A `section[id]` element: its id and its `offsetTop` in pixels. */
  datatype Section = Section(id: string, offsetTop: int)

  /** How far below the scroll offset a section's top may lie and still count. */
  const Lookahead := 200

  predicate Reached(s: Section, pageYOffset: int) {
    pageYOffset >= s.offsetTop - Lookahead
  }

  /** The id the handler settles on: that of the last reached section, or
      the empty string when no section is reached. */
  function CurrentId(sections: seq<Section>, pageYOffset: int): string {
    if sections == [] then ""
    else if Reached(sections[|sections| - 1], pageYOffset) then sections[|sections| - 1].id
    else CurrentId(sections[..|sections| - 1], pageYOffset)
  }

  /** When no section is reached, no id is chosen. */
  lemma {:induction false} CurrentIdNoneReached(sections: seq<Section>, pageYOffset: int)
    requires forall k :: 0 <= k < |sections| ==> !Reached(sections[k], pageYOffset)
    ensures CurrentId(sections, pageYOffset) == ""
  {
    if sections != [] {
      CurrentIdNoneReached(sections[..|sections| - 1], pageYOffset);
    }
  }

  /** When section `k` is reached and none after it is, its id is chosen,
      whatever the sections before it. */
  lemma {:induction false} CurrentIdLastReached(sections: seq<Section>, pageYOffset: int, k: nat)
    requires k < |sections| && Reached(sections[k], pageYOffset)
    requires forall j :: k < j < |sections| ==> !Reached(sections[j], pageYOffset)
    ensures CurrentId(sections, pageYOffset) == sections[k].id
  {
    if k < |sections| - 1 {
      CurrentIdLastReached(sections[..|sections| - 1], pageYOffset, k);
    }
  }

  /** The loop of the handler: every reached section overwrites `current`. */
  method FindCurrent(sections: seq<Section>, pageYOffset: int) returns (current: string)
    ensures current == CurrentId(sections, pageYOffset)
  {
    current := "";
    var i := 0;
    while i < |sections|
      invariant 0 <= i <= |sections|
      invariant current == CurrentId(sections[..i], pageYOffset)
    {
      assert sections[..i + 1][..i] == sections[..i];
      if Reached(sections[i], pageYOffset) {
        current := sections[i].id;
      }
      i := i + 1;
    }
    assert sections[..i] == sections;
  }

  /** The second loop: each `.nav-link` loses `active` and gets it back
      exactly when its href is `#` followed by the chosen id. */
  method HighlightLinks(hrefs: seq<string>, active: array<bool>, current: string)
    requires |hrefs| == active.Length
    modifies active
    ensures forall k :: 0 <= k < active.Length ==> (active[k] <==> hrefs[k] == "#" + current)
  {
    var i := 0;
    while i < active.Length
      invariant 0 <= i <= active.Length
      invariant forall k :: 0 <= k < i ==> (active[k] <==> hrefs[k] == "#" + current)
    {
      active[i] := false;
      if hrefs[i] == "#" + current {
        active[i] := true;
      }
      i := i + 1;
    }
  }

  /** The whole scroll handler. */
  method OnScroll(sections: seq<Section>, pageYOffset: int, hrefs: seq<string>, active: array<bool>)
    requires |hrefs| == active.Length
    modifies active
    ensures forall k :: 0 <= k < active.Length ==>
      (active[k] <==> hrefs[k] == "#" + CurrentId(sections, pageYOffset))
  {
    var current := FindCurrent(sections, pageYOffset);
    HighlightLinks(hrefs, active, current);
  }
}
