/** The action library at the level of a whole document: the selectors, and the actions that
    change the document's containers or the objects it holds, in place. */
module Actions {
  import opened Wrappers
  import opened Seqs
  import opened Document
  import opened StyleUsage
  import opened EntityActions

  // ---------------------------------------------------------------- the styles dict

  /** The styles dict: `names` is its key order, `styles` its entries. */
  ghost predicate StyleTable(names: seq<string>, styles: map<string, Style>) {
    && Distinct(names)
    && (forall k :: k in styles ==> k in names)
    && (forall k :: k in names ==> k in styles)
  }

  /** An id names one object: every entry holding it holds the same value. */
  ghost predicate StyleIdsCoherent(styles: map<string, Style>) {
    forall k1, k2 :: k1 in styles && k2 in styles && styles[k1].id == styles[k2].id ==>
      styles[k1] == styles[k2]
  }

  ghost predicate EventIdsCoherent(events: seq<Event>) {
    forall i, j :: 0 <= i < |events| && 0 <= j < |events| && events[i].id == events[j].id ==>
      events[i] == events[j]
  }

  /** `dict.get`: the style stored under the name, or None. */
  function Lookup(styles: map<string, Style>, name: string): Option<Style> {
    if name in styles then Some(styles[name]) else None
  }

  /** The styles' values in key order, one per key. */
  function AllStyles(names: seq<string>, styles: map<string, Style>): (r: seq<Style>)
    requires forall k :: k in names ==> k in styles
    ensures |r| == |names|
    ensures forall i :: 0 <= i < |names| ==> r[i] == styles[names[i]]
  {
    seq(|names|, i requires 0 <= i < |names| => styles[names[i]])
  }

  /** The selected styles are exactly the dict's values: as many as it has keys, each value of
      the dict among them and nothing else. */
  lemma AllStylesIsTable(names: seq<string>, styles: map<string, Style>)
    requires StyleTable(names, styles)
    ensures |AllStyles(names, styles)| == |styles|
    ensures forall k :: k in styles ==> styles[k] in AllStyles(names, styles)
    ensures forall s :: s in AllStyles(names, styles) ==> exists k :: k in styles && styles[k] == s
  {
    var r := AllStyles(names, styles);
    DistinctSetSize(names);
    assert styles.Keys == set x | x in names;
    forall k | k in styles ensures styles[k] in r {
      var i := FirstIndex(names, k);
      assert r[i] == styles[k];
    }
  }

  /** The object with s's id has become s: every key holding it sees the change. */
  function StylesWith(styles: map<string, Style>, s: Style): map<string, Style> {
    map k | k in styles :: if styles[k].id == s.id then s else styles[k]
  }

  /** The object with e's id has become e, wherever the event list holds it. */
  function EventsWith(events: seq<Event>, e: Event): seq<Event> {
    seq(|events|, i requires 0 <= i < |events| => if events[i].id == e.id then e else events[i])
  }

  // ---------------------------------------------------------------- removing a style

  /** Position, in key order, of the first key whose entry is the object with the given id. */
  function FirstKeyWithId(names: seq<string>, styles: map<string, Style>, id: nat): (r: Option<nat>)
    requires forall k :: k in names ==> k in styles
    ensures r.Some? ==> r.value < |names| && styles[names[r.value]].id == id
    ensures forall j :: 0 <= j < |names| && (r.None? || j < r.value) ==> styles[names[j]].id != id
  {
    if |names| == 0 then None
    else if styles[names[0]].id == id then Some(0)
    else
      match FirstKeyWithId(names[1..], styles, id)
      case None => None
      case Some(i) => Some(i + 1)
  }

  /** The styles dict after a removal, and what the call returned or raised. */
  datatype Removal = Removal(names: seq<string>, styles: map<string, Style>, result: Result<Style, Error>)

  /** `styles_remove` as written: the loop over the keys deletes the first key that holds the
      style, and the next step of the loop over the resized dict raises. So a style that is
      found is never returned, and at most one of its keys is deleted. */
  function RemoveStyleOutcome(names: seq<string>, styles: map<string, Style>, s: Style): (o: Removal)
    requires StyleTable(names, styles)
    ensures StyleTable(o.names, o.styles)
    ensures o.result.Ok? <==> forall k :: k in styles ==> styles[k].id != s.id
    ensures o.result.Ok? ==> o == Removal(names, styles, Ok(s))
    ensures o.result.Err? ==>
      var i := FirstKeyWithId(names, styles, s.id).value;
      && o.result.error == DictChangedSize
      && o.styles == styles - {names[i]}
      && o.names == RemoveAt(names, i)
  {
    match FirstKeyWithId(names, styles, s.id)
    case None =>
      NoKeyWithId(names, styles, s.id);
      Removal(names, styles, Ok(s))
    case Some(i) =>
      RemoveKeyAt(names, styles, i);
      Removal(RemoveAt(names, i), styles - {names[i]}, Err(DictChangedSize))
  }

  /** When no position in key order holds the id, no entry of the dict does. */
  lemma NoKeyWithId(names: seq<string>, styles: map<string, Style>, id: nat)
    requires StyleTable(names, styles)
    requires FirstKeyWithId(names, styles, id).None?
    ensures forall k :: k in styles ==> styles[k].id != id
  {
    forall k | k in styles ensures styles[k].id != id {
      assert names[FirstIndex(names, k)] == k;
    }
  }

  /** Deleting the key at position i from both the key order and the dict keeps them a table
      and shrinks the dict by one entry. */
  lemma RemoveKeyAt(names: seq<string>, styles: map<string, Style>, i: nat)
    requires StyleTable(names, styles) && i < |names|
    ensures StyleTable(RemoveAt(names, i), styles - {names[i]})
  {
    RemoveAtShape(names, i);
    var names' := RemoveAt(names, i);
    forall k | k in names && k != names[i] ensures k in names' {
      var j := FirstIndex(names, k);
      if j < i { assert names'[j] == k; } else { assert names'[j - 1] == k; }
    }
    forall j | 0 <= j < |names'| ensures names'[j] in names && names'[j] != names[i] {
      if j < i { assert names'[j] == names[j]; } else { assert names'[j] == names[j + 1]; }
    }
    RemoveAtDistinct(names, i);
  }

  /** What the removal was evidently meant to do: delete every key holding the style, then
      return it. The remaining keys keep their order, as deleting from a dict leaves the others
      in insertion order. */
  function RemoveStyleEverywhereOutcome(names: seq<string>, styles: map<string, Style>, s: Style): (o: Removal)
    requires StyleTable(names, styles)
    ensures StyleTable(o.names, o.styles)
    ensures o.result == Ok(s)
    ensures forall k :: k in o.styles ==> o.styles[k].id != s.id
    ensures forall k :: k in styles && styles[k].id != s.id ==> k in o.styles && o.styles[k] == styles[k]
    ensures forall k :: k in o.styles ==> k in styles
    ensures forall i, j :: 0 <= i < j < |o.names| ==>
      o.names[i] in names && o.names[j] in names && FirstIndex(names, o.names[i]) < FirstIndex(names, o.names[j])
  {
    var kept := map k | k in styles && styles[k].id != s.id :: styles[k];
    var keep := k => k in kept;
    var names' := FirstOccurrences(names, keep);
    FirstOccurrencesKeepOrder(names, keep, names');
    Removal(names', kept, Ok(s))
  }

  /** The discrepancy: a style reachable under two keys keeps one of them, and the call raises. */
  lemma AliasedStyleSurvivesRemoval(s: Style)
    ensures StyleTable(["Default", "Alias"], map["Default" := s, "Alias" := s])
    ensures var o := RemoveStyleOutcome(["Default", "Alias"], map["Default" := s, "Alias" := s], s);
      && o.result == Err(DictChangedSize)
      && "Alias" in o.styles && o.styles["Alias"].id == s.id
  {
    var names := ["Default", "Alias"];
    var styles := map["Default" := s, "Alias" := s];
    assert FirstKeyWithId(names, styles, s.id) == Some(0);
  }

  // ---------------------------------------------------------------- the most used style

  /** The counts dict of `styles_select_top` (its keys in insertion order, and their counts)
      yields the top style: the first key, in that order, holding the largest count. */
  lemma FirstMaxIsTop(events: seq<Event>, names: seq<string>, counts: map<string, nat>, k: nat)
    requires names == UsedNames(events)
    requires forall n :: n in counts <==> n in names
    requires forall n :: n in counts ==> counts[n] == UsageCount(events, n)
    requires k < |names|
    requires forall m :: 0 <= m < |names| ==> counts[names[m]] <= counts[names[k]]
    requires forall m :: 0 <= m < k ==> counts[names[m]] != counts[names[k]]
    ensures IsTopStyle(events, names[k])
  {
    var used, top := StyleNamesOf(events), names[k];
    forall m ensures UsageCount(events, m) <= UsageCount(events, top) {
      if m in used {
        var x := FirstIndex(names, m);
        assert counts[names[x]] <= counts[top];
      }
    }
    forall m | m in used && UsageCount(events, m) == UsageCount(events, top)
      ensures FirstIndex(used, top) <= FirstIndex(used, m)
    {
      var x := FirstIndex(names, m);
      assert counts[names[x]] == counts[top];
      if k < x {
        FirstOccurrencesOrder(used, AnyName, k, x);
      }
    }
  }

  /** The counts dict of `styles_select_top`: one pass over the events, adding a style name
      the first time it is met and counting it up every time. `names` is the dict's key order. */
  method CountStyles(events: seq<Event>) returns (names: seq<string>, counts: map<string, nat>)
    ensures names == UsedNames(events)
    ensures forall n :: n in counts <==> n in names
    ensures forall n :: n in counts ==> counts[n] == UsageCount(events, n)
    ensures |names| == 0 <==> |events| == 0
  {
    ghost var used := StyleNamesOf(events);
    names, counts := [], map[];
    var i := 0;
    while i < |events|
      invariant 0 <= i <= |events|
      invariant names == FirstOccurrences(used[..i], AnyName)
      invariant forall n :: n in counts <==> n in names
      invariant forall n :: n in counts ==> counts[n] == Count(used[..i], n)
    {
      var name := events[i].style;
      assert used[..i + 1] == used[..i] + [name];
      ghost var names', counts' := CountStep(used[..i], name, names, counts);
      if name in counts {
        counts := counts[name := counts[name] + 1];
      } else {
        counts := counts[name := 1];
        names := names + [name];
      }
      assert names == names' && counts == counts';
      i := i + 1;
    }
    assert used[..i] == used;
    assert |events| > 0 ==> used[0] in names;
  }

  /** One step of the counting loop: meeting `name` after `prefix` extends the counts dict as
      the loop does, and keeps it the counts of the longer prefix. */
  lemma CountStep(prefix: seq<string>, name: string, names: seq<string>, counts: map<string, nat>)
    returns (names': seq<string>, counts': map<string, nat>)
    requires names == FirstOccurrences(prefix, AnyName)
    requires forall n :: n in counts <==> n in names
    requires forall n :: n in counts ==> counts[n] == Count(prefix, n)
    ensures names' == if name in counts then names else names + [name]
    ensures counts' == if name in counts then counts[name := counts[name] + 1] else counts[name := 1]
    ensures names' == FirstOccurrences(prefix + [name], AnyName)
    ensures forall n :: n in counts' <==> n in names'
    ensures forall n :: n in counts' ==> counts'[n] == Count(prefix + [name], n)
  {
    FirstOccurrencesAppend(prefix, name, AnyName);
    CountAppendAll(prefix, name);
    if name in counts {
      names', counts' := names, counts[name := counts[name] + 1];
    } else {
      names', counts' := names + [name], counts[name := 1];
    }
  }

  /** `max(counts.values())` over a non-empty dict. */
  method MaxCount(names: seq<string>, counts: map<string, nat>) returns (value: nat)
    requires |names| > 0 && forall n :: n in names ==> n in counts
    ensures exists m :: 0 <= m < |names| && counts[names[m]] == value
    ensures forall m :: 0 <= m < |names| ==> counts[names[m]] <= value
  {
    value := counts[names[0]];
    var j := 1;
    while j < |names|
      invariant 1 <= j <= |names|
      invariant exists m :: 0 <= m < j && counts[names[m]] == value
      invariant forall m :: 0 <= m < j ==> counts[names[m]] <= value
    {
      if counts[names[j]] > value {
        value := counts[names[j]];
      }
      j := j + 1;
    }
  }

  /** `next(k for k, v in counts.items() if v == value)`: the first key, in the dict's order,
      holding the value. */
  method FirstWithCount(names: seq<string>, counts: map<string, nat>, value: nat) returns (k: nat)
    requires forall n :: n in names ==> n in counts
    requires exists m :: 0 <= m < |names| && counts[names[m]] == value
    ensures k < |names| && counts[names[k]] == value
    ensures forall m :: 0 <= m < k ==> counts[names[m]] != value
  {
    ghost var at :| 0 <= at < |names| && counts[names[at]] == value;
    k := 0;
    while counts[names[k]] != value
      invariant 0 <= k <= at
      invariant forall m :: 0 <= m < k ==> counts[names[m]] != value
      decreases at - k
    {
      k := k + 1;
    }
  }

  // ---------------------------------------------------------------- the document

  /** A parsed subtitle file: the info dict, the styles dict and the event list, all changed in
      place by the actions. */
  class SubtitleFile {
    var info: map<string, Value>
    var styleNames: seq<string>
    var styles: map<string, Style>
    var events: seq<Event>

    ghost predicate Valid()
      reads this
    {
      StyleTable(styleNames, styles) && StyleIdsCoherent(styles) && EventIdsCoherent(events)
    }

    /** s is the style object as the document holds it now: every slot holding an object with
        s's id holds exactly s. An action's candidate is the live object, so it is never an
        older value of it. */
    ghost predicate HoldsCurrentStyle(s: Style)
      reads this
    {
      forall k :: k in styles && styles[k].id == s.id ==> styles[k] == s
    }

    /** e is the event object as the document holds it now. */
    ghost predicate HoldsCurrentEvent(e: Event)
      reads this
    {
      forall i :: 0 <= i < |events| && events[i].id == e.id ==> events[i] == e
    }

    /** The document as the parser hands it over. */
    constructor (info: map<string, Value>, styleNames: seq<string>, styles: map<string, Style>, events: seq<Event>)
      requires StyleTable(styleNames, styles) && StyleIdsCoherent(styles) && EventIdsCoherent(events)
      ensures Valid()
      ensures this.info == info && this.styleNames == styleNames
      ensures this.styles == styles && this.events == events
    {
      this.info := info;
      this.styleNames := styleNames;
      this.styles := styles;
      this.events := events;
    }

    /** `info_select_current_info`: the one candidate is the info dict itself. */
    function SelectCurrentInfo(): (r: seq<map<string, Value>>)
      reads this
      ensures |r| == 1 && r[0] == info
    {
      [info]
    }

    /** `styles_select_all`. */
    function SelectAllStyles(): (r: seq<Style>)
      reads this
      requires Valid()
      ensures r == AllStyles(styleNames, styles)
    {
      AllStyles(styleNames, styles)
    }

    /** `events_select_all`: the event list itself. */
    function SelectAllEvents(): (r: seq<Event>)
      reads this
      ensures r == events
    {
      events
    }

    /** `styles_select_top`: count the events per style name in a dict, take the largest count
        (`max` raises on a document without events), take the first name in the dict's order
        with that count, and return the style stored under it, or None. */
    method SelectTop() returns (r: Result<seq<Option<Style>>, Error>)
      ensures r.Err? <==> |events| == 0
      ensures r.Err? ==> r.error == MaxOfEmpty
      ensures r.Ok? ==> exists name :: IsTopStyle(events, name) && r.value == [Lookup(styles, name)]
    {
      var names, counts := CountStyles(events);
      if |names| == 0 {
        return Err(MaxOfEmpty);
      }
      var value := MaxCount(names, counts);
      var k := FirstWithCount(names, counts, value);
      FirstMaxIsTop(events, names, counts, k);
      r := Ok([Lookup(styles, names[k])]);
    }

    /** `info_action_save`: a copy of the info dict. */
    method SaveInfo() returns (snapshot: map<string, Value>)
      ensures snapshot == info
    {
      snapshot := info;
    }

    /** `info_action_update`: `info.update(kwargs)`, returning the updated dict. */
    method UpdateInfo(kw: map<string, Value>) returns (r: map<string, Value>)
      requires Valid()
      modifies this
      ensures Valid()
      ensures info.Keys == old(info).Keys + kw.Keys
      ensures forall k :: k in kw ==> info[k] == kw[k]
      ensures forall k :: k in old(info) && k !in kw ==> info[k] == old(info)[k]
      ensures r == info
      ensures styleNames == old(styleNames) && styles == old(styles) && events == old(events)
    {
      info := info + kw;
      r := info;
    }

    /** `styles_action_scale_margins` on a style of this document: the style object changes, so
        every key holding it sees the new margins. */
    method ScaleStyleMargins(s: Style, p: ScaleParams) returns (r: Result<Style, Error>)
      requires Valid() && HoldsCurrentStyle(s)
      modifies this
      ensures Valid()
      ensures r.Ok? ==> HoldsCurrentStyle(r.value)
      ensures r == ScaledStyle(s, p)
      ensures styles == if r.Ok? then StylesWith(old(styles), r.value) else old(styles)
      ensures info == old(info) && styleNames == old(styleNames) && events == old(events)
    {
      r := ScaledStyle(s, p);
      if r.Ok? {
        styles := StylesWith(styles, r.value);
      }
    }

    /** `styles_action_scale`: the same as scaling the margins. */
    method ScaleStyle(s: Style, p: ScaleParams) returns (r: Result<Style, Error>)
      requires Valid() && HoldsCurrentStyle(s)
      modifies this
      ensures Valid()
      ensures r.Ok? ==> HoldsCurrentStyle(r.value)
      ensures r == ScaledStyle(s, p)
      ensures styles == if r.Ok? then StylesWith(old(styles), r.value) else old(styles)
      ensures info == old(info) && styleNames == old(styleNames) && events == old(events)
    {
      r := ScaleStyleMargins(s, p);
    }

    /** `events_action_scale_margins` on an event of this document. */
    method ScaleEventMargins(e: Event, p: ScaleParams) returns (r: Result<Event, Error>)
      requires Valid() && HoldsCurrentEvent(e)
      modifies this
      ensures Valid()
      ensures r.Ok? ==> HoldsCurrentEvent(r.value)
      ensures r == ScaledEventMargins(e, p)
      ensures events == if r.Ok? then EventsWith(old(events), r.value) else old(events)
      ensures info == old(info) && styleNames == old(styleNames) && styles == old(styles)
    {
      r := ScaledEventMargins(e, p);
      if r.Ok? {
        events := EventsWith(events, r.value);
      }
    }

    /** `events_action_scale`: the margins first, then the `\pos` rewrite of the text, which is
        given as `rewritePositions`. When the rewrite fails the margins are already scaled. */
    method ScaleEvent(e: Event, p: ScaleParams, rewritePositions: (string, ScaleParams) -> Option<string>)
      returns (r: Result<Event, Error>)
      requires Valid() && HoldsCurrentEvent(e)
      modifies this
      ensures Valid()
      ensures r.Ok? ==> HoldsCurrentEvent(r.value)
      ensures ScaledEventMargins(e, p).Err? ==> r == Err(ZeroDivision) && events == old(events)
      ensures ScaledEventMargins(e, p).Ok? ==>
        var m := ScaledEventMargins(e, p).value;
        match rewritePositions(e.text, p)
        case None => r == Err(PositionRewrite) && events == EventsWith(old(events), m)
        case Some(t) => r == Ok(m.(text := t)) && events == EventsWith(old(events), m.(text := t))
      ensures info == old(info) && styleNames == old(styleNames) && styles == old(styles)
    {
      var m := ScaleEventMargins(e, p);
      if m.Err? {
        return Err(m.error);
      }
      var t := rewritePositions(m.value.text, p);
      if t.None? {
        return Err(PositionRewrite);
      }
      var scaled := m.value.(text := t.value);
      events := EventsWith(events, scaled);
      r := Ok(scaled);
    }

    /** `styles_action_update_properties` on a style of this document. */
    method UpdateStyleProperties(s: Style, kw: map<string, Value>) returns (r: Result<Style, Error>)
      requires Valid() && HoldsCurrentStyle(s)
      modifies this
      ensures Valid()
      ensures r.Ok? ==> HoldsCurrentStyle(r.value)
      ensures r == StyleWithProperties(s, kw)
      ensures styles == if r.Ok? then StylesWith(old(styles), r.value) else old(styles)
      ensures info == old(info) && styleNames == old(styleNames) && events == old(events)
    {
      r := StyleWithProperties(s, kw);
      if r.Ok? {
        styles := StylesWith(styles, r.value);
      }
    }

    /** `events_action_update_properties` on an event of this document. */
    method UpdateEventProperties(e: Event, kw: map<string, Value>) returns (r: Result<Event, Error>)
      requires Valid() && HoldsCurrentEvent(e)
      modifies this
      ensures Valid()
      ensures r.Ok? ==> HoldsCurrentEvent(r.value)
      ensures r == EventWithProperties(e, kw)
      ensures events == if r.Ok? then EventsWith(old(events), r.value) else old(events)
      ensures info == old(info) && styleNames == old(styleNames) && styles == old(styles)
    {
      r := EventWithProperties(e, kw);
      if r.Ok? {
        events := EventsWith(events, r.value);
      }
    }

    /** `styles_remove`: walk the keys in order and delete the first one holding the style;
        the walk then fails on the resized dict. Events naming the style are left alone. */
    method RemoveStyle(s: Style) returns (r: Result<Style, Error>)
      requires Valid()
      modifies this
      ensures Valid()
      ensures Removal(styleNames, styles, r) == RemoveStyleOutcome(old(styleNames), old(styles), s)
      ensures info == old(info) && events == old(events)
    {
      var i := 0;
      while i < |styleNames|
        invariant 0 <= i <= |styleNames|
        invariant styleNames == old(styleNames) && styles == old(styles)
        invariant forall j :: 0 <= j < i ==> styles[styleNames[j]].id != s.id
      {
        var key := styleNames[i];
        if styles[key].id == s.id {
          assert FirstKeyWithId(styleNames, styles, s.id) == Some(i);
          styles := styles - {key};
          styleNames := RemoveAt(styleNames, i);
          return Err(DictChangedSize);
        }
        i := i + 1;
      }
      r := Ok(s);
    }

    /** The removal as evidently intended: every key holding the style is deleted and the
        style is returned. Events naming the style are left alone. */
    method RemoveStyleEverywhere(s: Style) returns (r: Result<Style, Error>)
      requires Valid()
      modifies this
      ensures Valid()
      ensures Removal(styleNames, styles, r) == RemoveStyleEverywhereOutcome(old(styleNames), old(styles), s)
      ensures info == old(info) && events == old(events)
    {
      var o := RemoveStyleEverywhereOutcome(styleNames, styles, s);
      styleNames, styles, r := o.names, o.styles, o.result;
    }

    /** `events_action_delete`: `list.remove`, which deletes the first event equal to the
        argument and raises when there is none. */
    method DeleteEvent(e: Event) returns (r: Result<Event, Error>)
      requires Valid()
      modifies this
      ensures Valid()
      ensures r.Err? <==> e !in old(events)
      ensures r.Err? ==> r.error == NotInList && events == old(events)
      ensures r.Ok? ==> r.value == e && events == RemoveAt(old(events), FirstIndex(old(events), e))
      ensures info == old(info) && styleNames == old(styleNames) && styles == old(styles)
    {
      if e in events {
        var i := FirstIndex(events, e);
        RemoveAtShape(events, i);
        events := RemoveAt(events, i);
        r := Ok(e);
      } else {
        r := Err(NotInList);
      }
    }
  }

  /** Scaling a style held under several keys, and then scaling the object the first call left in
      the document, scales it twice under every one of those keys: each call changes the one
      shared object. */
  method ScaleTwice(doc: SubtitleFile, s: Style, p: ScaleParams) returns (r: Result<Style, Error>)
    requires doc.Valid() && doc.HoldsCurrentStyle(s)
    requires p.xOld != 0 && p.yOld != 0
    modifies doc
    ensures doc.Valid()
    ensures r.Ok? && r == ScaledStyle(ScaledStyle(s, p).value, p)
    ensures forall k :: k in old(doc.styles) && old(doc.styles)[k].id == s.id ==>
      k in doc.styles && doc.styles[k] == r.value
  {
    var once := doc.ScaleStyleMargins(s, p);
    r := doc.ScaleStyleMargins(once.value, p);
  }

  /** A saved copy of the info dict is a snapshot: a later update of the dict leaves it as it was.
      Here this holds by the value semantics of Dafny's maps; in the source it is the copy taken
      by `info_action_save` that makes it hold. */
  method SaveThenUpdate(doc: SubtitleFile, kw: map<string, Value>) returns (saved: map<string, Value>)
    requires doc.Valid()
    modifies doc
    ensures doc.Valid()
    ensures saved == old(doc.info)
    ensures forall k :: k in kw ==> k in doc.info && doc.info[k] == kw[k]
  {
    saved := doc.SaveInfo();
    var _ := doc.UpdateInfo(kw);
  }
}
