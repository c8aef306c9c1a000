/** The actions of the library that change one style or one event: scaling of margins, merging
    keyword arguments into its attributes, and the event filter on its flags. Each is a function
    from the candidate's old value to its new one; `Actions.SubtitleFile` writes the new value
    back wherever the document holds that object. */
module EntityActions {
  import opened Wrappers
  import opened Document

  // ---------------------------------------------------------------- rounding

  /** The integer nearest to n / d, ties to the even one, as Python's `round` does. */
  function RoundDiv(n: int, d: int): (q: int)
    requires d > 0
    ensures -d <= 2 * (n - q * d) <= d
    ensures (2 * (n - q * d) == d || 2 * (n - q * d) == -d) ==> q % 2 == 0
  {
    var fl, rem := n / d, n % d;
    assert n - fl * d == rem && 0 <= rem < d;
    assert n - (fl + 1) * d == rem - d by { assert (fl + 1) * d == fl * d + d; }
    if 2 * rem < d then fl
    else if 2 * rem > d then fl + 1
    else if fl % 2 == 0 then fl
    else fl + 1
  }

  function Abs(x: int): int {
    if x < 0 then -x else x
  }

  /** r is an integer nearest to v * num / den: at most half a unit away. */
  predicate Nearest(v: int, num: int, den: int, r: int) {
    -Abs(den) <= 2 * (v * num - r * den) <= Abs(den)
  }

  /** `round(v * (num / den))`: v scaled by the ratio of a new to an old reference dimension and
      rounded to a nearest integer. The ratio is taken exactly, not in floating point. */
  function Scale(v: int, num: int, den: int): (r: int)
    requires den != 0
    ensures Nearest(v, num, den, r)
  {
    if den > 0 then RoundDiv(v * num, den)
    else
      var q := RoundDiv(-(v * num), -den);
      assert q * -den == -(q * den);
      q
  }

  /** A non-zero multiple of d is at least d away from zero, on the side the signs give. */
  lemma MultipleBounds(t: int, d: int)
    ensures t >= 1 && d >= 1 ==> t * d >= d
    ensures t <= -1 && d >= 1 ==> t * d <= -d
    ensures t >= 1 && d <= -1 ==> t * d <= d
    ensures t <= -1 && d <= -1 ==> t * d >= -d
  {
    assert t * d - d == (t - 1) * d;
    assert t * d + d == (t + 1) * d;
  }

  /** Scaling by a ratio of one leaves the value as it is. */
  lemma ScaleByOne(v: int, d: int)
    requires d != 0
    ensures Scale(v, d, d) == v
  {
    var r := Scale(v, d, d);
    assert v * d - r * d == (v - r) * d;
    MultipleBounds(v - r, d);
  }

  // ---------------------------------------------------------------- scaling margins

  /** The keyword arguments of the scale actions: the old and new reference width and height. */
  datatype ScaleParams = ScaleParams(xOld: int, xNew: int, yOld: int, yNew: int)

  /** `styles_action_scale_margins`: the font size and the vertical margin follow the height
      ratio, the left and right margins the width ratio. Both ratios are computed before any
      field changes, so a zero old dimension raises with the style untouched. */
  function ScaledStyle(s: Style, p: ScaleParams): (r: Result<Style, Error>)
    ensures r.Err? <==> p.yOld == 0 || p.xOld == 0
    ensures r.Err? ==> r.error == ZeroDivision
    ensures r.Ok? ==>
      r.value == s.(fontsize := r.value.fontsize, marginv := r.value.marginv,
                    marginl := r.value.marginl, marginr := r.value.marginr)
    ensures r.Ok? ==>
      && Nearest(s.fontsize, p.yNew, p.yOld, r.value.fontsize)
      && Nearest(s.marginv, p.yNew, p.yOld, r.value.marginv)
      && Nearest(s.marginl, p.xNew, p.xOld, r.value.marginl)
      && Nearest(s.marginr, p.xNew, p.xOld, r.value.marginr)
  {
    if p.yOld == 0 || p.xOld == 0 then Err(ZeroDivision)
    else
      Ok(s.(fontsize := Scale(s.fontsize, p.yNew, p.yOld),
            marginv := Scale(s.marginv, p.yNew, p.yOld),
            marginl := Scale(s.marginl, p.xNew, p.xOld),
            marginr := Scale(s.marginr, p.xNew, p.xOld)))
  }

  /** The font size and vertical margin depend on the height ratio alone, the side margins on
      the width ratio alone. */
  lemma ScaledStyleAxes(s: Style, p: ScaleParams, q: ScaleParams)
    requires ScaledStyle(s, p).Ok? && ScaledStyle(s, q).Ok?
    ensures p.yOld == q.yOld && p.yNew == q.yNew ==>
      ScaledStyle(s, p).value.fontsize == ScaledStyle(s, q).value.fontsize &&
      ScaledStyle(s, p).value.marginv == ScaledStyle(s, q).value.marginv
    ensures p.xOld == q.xOld && p.xNew == q.xNew ==>
      ScaledStyle(s, p).value.marginl == ScaledStyle(s, q).value.marginl &&
      ScaledStyle(s, p).value.marginr == ScaledStyle(s, q).value.marginr
  {
  }

  /** Scaling to the same reference dimensions gives the style back unchanged. */
  lemma ScaledStyleUnitRatio(s: Style, p: ScaleParams)
    requires p.xOld != 0 && p.xNew == p.xOld && p.yOld != 0 && p.yNew == p.yOld
    ensures ScaledStyle(s, p) == Ok(s)
  {
    ScaleByOne(s.fontsize, p.yOld);
    ScaleByOne(s.marginv, p.yOld);
    ScaleByOne(s.marginl, p.xOld);
    ScaleByOne(s.marginr, p.xOld);
  }

  /** `events_action_scale_margins`: as for a style, without a font size. */
  function ScaledEventMargins(e: Event, p: ScaleParams): (r: Result<Event, Error>)
    ensures r.Err? <==> p.yOld == 0 || p.xOld == 0
    ensures r.Err? ==> r.error == ZeroDivision
    ensures r.Ok? ==>
      r.value == e.(marginv := r.value.marginv, marginl := r.value.marginl, marginr := r.value.marginr)
    ensures r.Ok? ==>
      && Nearest(e.marginv, p.yNew, p.yOld, r.value.marginv)
      && Nearest(e.marginl, p.xNew, p.xOld, r.value.marginl)
      && Nearest(e.marginr, p.xNew, p.xOld, r.value.marginr)
  {
    if p.yOld == 0 || p.xOld == 0 then Err(ZeroDivision)
    else
      Ok(e.(marginv := Scale(e.marginv, p.yNew, p.yOld),
            marginl := Scale(e.marginl, p.xNew, p.xOld),
            marginr := Scale(e.marginr, p.xNew, p.xOld)))
  }

  /** Scaling to the same reference dimensions gives the event back unchanged. */
  lemma ScaledEventMarginsUnitRatio(e: Event, p: ScaleParams)
    requires p.xOld != 0 && p.xNew == p.xOld && p.yOld != 0 && p.yNew == p.yOld
    ensures ScaledEventMargins(e, p) == Ok(e)
  {
    ScaleByOne(e.marginv, p.yOld);
    ScaleByOne(e.marginl, p.xOld);
    ScaleByOne(e.marginr, p.xOld);
  }

  // ---------------------------------------------------------------- merging keyword arguments

  /** The keyword arguments that name no typed attribute: they are kept in `extra`. */
  function ExtraArgs(kw: map<string, Value>, typed: set<string>): map<string, Value> {
    map k | k in kw && k !in typed :: kw[k]
  }

  function IntArg(kw: map<string, Value>, key: string, current: int): int {
    if key in kw && kw[key].Int? then kw[key].i else current
  }

  function StrArg(kw: map<string, Value>, key: string, current: string): string {
    if key in kw && kw[key].Str? then kw[key].s else current
  }

  /** The typed attributes of a style, by their Python names. */
  const STYLE_FIELDS: set<string> := {"fontsize", "marginv", "marginl", "marginr"}

  /** The value of a typed style attribute. */
  function StyleAttr(s: Style, key: string): Value
    requires key in STYLE_FIELDS
  {
    if key == "fontsize" then Int(s.fontsize)
    else if key == "marginv" then Int(s.marginv)
    else if key == "marginl" then Int(s.marginl)
    else Int(s.marginr)
  }

  /** `styles_action_update_properties`: every supplied key overwrites the attribute of that
      name and every other attribute keeps its value. A typed attribute given a value of another
      type is refused instead of stored. */
  function StyleWithProperties(s: Style, kw: map<string, Value>): (r: Result<Style, Error>)
    ensures r.Err? <==> exists k :: k in kw && k in STYLE_FIELDS && !kw[k].Int?
    ensures r.Err? ==> r.error == WrongType
    ensures r.Ok? ==> r.value.id == s.id
    ensures r.Ok? ==> forall k :: k in STYLE_FIELDS ==>
      StyleAttr(r.value, k) == if k in kw then kw[k] else StyleAttr(s, k)
    ensures r.Ok? ==> forall k ::
      k in r.value.extra <==> k in s.extra || (k in kw && k !in STYLE_FIELDS)
    ensures r.Ok? ==> forall k :: k in r.value.extra ==>
      r.value.extra[k] == if k in kw && k !in STYLE_FIELDS then kw[k] else s.extra[k]
  {
    if !StyleArgsFit(kw) then Err(WrongType) else Ok(MergedStyle(s, kw))
  }

  /** Every supplied typed style attribute is an integer. */
  predicate StyleArgsFit(kw: map<string, Value>) {
    forall k :: k in kw && k in STYLE_FIELDS ==> kw[k].Int?
  }

  function MergedStyle(s: Style, kw: map<string, Value>): Style {
    Style(s.id,
          IntArg(kw, "fontsize", s.fontsize),
          IntArg(kw, "marginv", s.marginv),
          IntArg(kw, "marginl", s.marginl),
          IntArg(kw, "marginr", s.marginr),
          s.extra + ExtraArgs(kw, STYLE_FIELDS))
  }

  /** An update without keyword arguments changes nothing. */
  lemma StyleWithNoProperties(s: Style)
    ensures StyleWithProperties(s, map[]) == Ok(s)
  {
    assert ExtraArgs(map[], STYLE_FIELDS) == map[];
    assert s.extra + map[] == s.extra;
  }

  /** Merging keyword arguments and then setting aside the untyped ones is the same as setting
      them aside first. */
  lemma ExtraArgsMerge(a: map<string, Value>, b: map<string, Value>, typed: set<string>)
    ensures ExtraArgs(a, typed) + ExtraArgs(b, typed) == ExtraArgs(a + b, typed)
  {
  }

  lemma IntArgMerge(a: map<string, Value>, b: map<string, Value>, key: string, current: int)
    requires key in a ==> a[key].Int?
    requires key in b ==> b[key].Int?
    ensures IntArg(b, key, IntArg(a, key, current)) == IntArg(a + b, key, current)
  {
  }

  lemma MergedStyleLastWriteWins(s: Style, a: map<string, Value>, b: map<string, Value>)
    requires StyleArgsFit(a) && StyleArgsFit(b)
    ensures MergedStyle(MergedStyle(s, a), b) == MergedStyle(s, a + b)
  {
    ExtraArgsMerge(a, b, STYLE_FIELDS);
    assert s.extra + ExtraArgs(a, STYLE_FIELDS) + ExtraArgs(b, STYLE_FIELDS)
        == s.extra + ExtraArgs(a + b, STYLE_FIELDS);
    IntArgMerge(a, b, "fontsize", s.fontsize);
    IntArgMerge(a, b, "marginv", s.marginv);
    IntArgMerge(a, b, "marginl", s.marginl);
    IntArgMerge(a, b, "marginr", s.marginr);
  }

  /** Two updates in a row are one update with the merged arguments, the later winning. */
  lemma StylePropertiesLastWriteWins(s: Style, a: map<string, Value>, b: map<string, Value>)
    requires StyleWithProperties(s, a).Ok? && StyleWithProperties(s, a + b).Ok?
    ensures StyleWithProperties(StyleWithProperties(s, a).value, b) == StyleWithProperties(s, a + b)
  {
    assert StyleArgsFit(a) && StyleArgsFit(a + b);
    forall k | k in b && k in STYLE_FIELDS ensures b[k].Int? {
      assert (a + b)[k] == b[k];
    }
    assert StyleArgsFit(b);
    MergedStyleLastWriteWins(s, a, b);
    var s1 := MergedStyle(s, a);
    assert StyleWithProperties(s, a).value == s1;
    assert StyleWithProperties(s1, b) == Ok(MergedStyle(s1, b));
    assert StyleWithProperties(s, a + b) == Ok(MergedStyle(s, a + b));
  }

  /** The typed attributes of an event that an update can set, by their Python names. The flags
      `is_comment` and `is_drawing` are not among them: the subtitle library computes them as
      properties, which an entry in the instance dict does not override. */
  const EVENT_FIELDS: set<string> := {"style", "text", "marginv", "marginl", "marginr"}

  /** The value of a typed event attribute. */
  function EventAttr(e: Event, key: string): Value
    requires key in EVENT_FIELDS
  {
    if key == "style" then Str(e.style)
    else if key == "text" then Str(e.text)
    else if key == "marginv" then Int(e.marginv)
    else if key == "marginl" then Int(e.marginl)
    else Int(e.marginr)
  }

  /** Whether v has the type of the typed event attribute `key`. */
  predicate FitsEventAttr(key: string, v: Value) {
    if key == "style" || key == "text" then v.Str? else v.Int?
  }

  /** `events_action_update_properties`: as for a style, over the event's attributes. The two
      flags keep their values; keys of those names are filed with the extra attributes. */
  function EventWithProperties(e: Event, kw: map<string, Value>): (r: Result<Event, Error>)
    ensures r.Err? <==> exists k :: k in kw && k in EVENT_FIELDS && !FitsEventAttr(k, kw[k])
    ensures r.Err? ==> r.error == WrongType
    ensures r.Ok? ==> r.value.id == e.id
    ensures r.Ok? ==> r.value.isComment == e.isComment && r.value.isDrawing == e.isDrawing
    ensures r.Ok? ==> forall k :: k in EVENT_FIELDS ==>
      EventAttr(r.value, k) == if k in kw then kw[k] else EventAttr(e, k)
    ensures r.Ok? ==> forall k ::
      k in r.value.extra <==> k in e.extra || (k in kw && k !in EVENT_FIELDS)
    ensures r.Ok? ==> forall k :: k in r.value.extra ==>
      r.value.extra[k] == if k in kw && k !in EVENT_FIELDS then kw[k] else e.extra[k]
  {
    if !EventArgsFit(kw) then Err(WrongType) else Ok(MergedEvent(e, kw))
  }

  /** Every supplied typed event attribute has the type it holds. */
  predicate EventArgsFit(kw: map<string, Value>) {
    forall k :: k in kw && k in EVENT_FIELDS ==> FitsEventAttr(k, kw[k])
  }

  function MergedEvent(e: Event, kw: map<string, Value>): Event {
    Event(e.id,
          StrArg(kw, "style", e.style),
          StrArg(kw, "text", e.text),
          IntArg(kw, "marginv", e.marginv),
          IntArg(kw, "marginl", e.marginl),
          IntArg(kw, "marginr", e.marginr),
          e.isComment,
          e.isDrawing,
          e.extra + ExtraArgs(kw, EVENT_FIELDS))
  }

  lemma StrArgMerge(a: map<string, Value>, b: map<string, Value>, key: string, current: string)
    requires key in a ==> a[key].Str?
    requires key in b ==> b[key].Str?
    ensures StrArg(b, key, StrArg(a, key, current)) == StrArg(a + b, key, current)
  {
  }

  lemma MergedEventLastWriteWins(e: Event, a: map<string, Value>, b: map<string, Value>)
    requires EventArgsFit(a) && EventArgsFit(b)
    ensures MergedEvent(MergedEvent(e, a), b) == MergedEvent(e, a + b)
  {
    ExtraArgsMerge(a, b, EVENT_FIELDS);
    assert e.extra + ExtraArgs(a, EVENT_FIELDS) + ExtraArgs(b, EVENT_FIELDS)
        == e.extra + ExtraArgs(a + b, EVENT_FIELDS);
    StrArgMerge(a, b, "style", e.style);
    StrArgMerge(a, b, "text", e.text);
    IntArgMerge(a, b, "marginv", e.marginv);
    IntArgMerge(a, b, "marginl", e.marginl);
    IntArgMerge(a, b, "marginr", e.marginr);
  }

  /** Two updates in a row are one update with the merged arguments, the later winning. */
  lemma EventPropertiesLastWriteWins(e: Event, a: map<string, Value>, b: map<string, Value>)
    requires EventWithProperties(e, a).Ok? && EventWithProperties(e, a + b).Ok?
    ensures EventWithProperties(EventWithProperties(e, a).value, b) == EventWithProperties(e, a + b)
  {
    assert EventArgsFit(a) && EventArgsFit(a + b);
    forall k | k in b && k in EVENT_FIELDS ensures FitsEventAttr(k, b[k]) {
      assert (a + b)[k] == b[k];
    }
    assert EventArgsFit(b);
    MergedEventLastWriteWins(e, a, b);
    var e1 := MergedEvent(e, a);
    assert EventWithProperties(e, a).value == e1;
    assert EventWithProperties(e1, b) == Ok(MergedEvent(e1, b));
    assert EventWithProperties(e, a + b) == Ok(MergedEvent(e, a + b));
  }

  // ---------------------------------------------------------------- filtering on flags

  /** `events_filter_properties`: starting from true, each of `is_comment` and `is_drawing`
      that is supplied is and-ed in as a Python `==` test against the event's flag. */
  function FilterProperties(e: Event, kw: map<string, Value>): (keep: bool)
    ensures keep <==>
      && ("is_comment" in kw ==> BoolEquals(e.isComment, kw["is_comment"]))
      && ("is_drawing" in kw ==> BoolEquals(e.isDrawing, kw["is_drawing"]))
  {
    var fil := true;
    var fil := if "is_comment" in kw then fil && BoolEquals(e.isComment, kw["is_comment"]) else fil;
    if "is_drawing" in kw then fil && BoolEquals(e.isDrawing, kw["is_drawing"]) else fil
  }

  /** With neither flag supplied, every event passes, whatever else the arguments hold. */
  lemma FilterWithoutFlagsKeepsAll(e: Event, kw: map<string, Value>)
    requires "is_comment" !in kw && "is_drawing" !in kw
    ensures FilterProperties(e, kw)
  {
  }

  /** Only the two flag keys matter. */
  lemma FilterIgnoresOtherKeys(e: Event, kw: map<string, Value>, k: string, v: Value)
    requires k != "is_comment" && k != "is_drawing"
    ensures FilterProperties(e, kw[k := v]) == FilterProperties(e, kw)
  {
  }

  /** Asking for comments drops a dialogue event; Python's True == 1 == 1.0 makes Int(1) and
      Float(1.0) ask the same, while None keeps nothing. */
  lemma FilterOnComment(e: Event)
    ensures !e.isComment ==> !FilterProperties(e, map["is_comment" := Bool(true)])
    ensures FilterProperties(e, map["is_comment" := Bool(true)])
        == FilterProperties(e, map["is_comment" := Int(1)])
        == FilterProperties(e, map["is_comment" := Float(1.0)])
    ensures !FilterProperties(e, map["is_comment" := NoneValue])
  {
  }

  /** An update that sets neither the event's type nor its text never changes which flag filter
      keeps the event: the flags are not attributes an update can set, and the subtitle library
      computes them from those two attributes alone. */
  lemma UpdateKeepsFilterVerdict(e: Event, kw: map<string, Value>, query: map<string, Value>)
    requires "type" !in kw && "text" !in kw
    requires EventWithProperties(e, kw).Ok?
    ensures FilterProperties(EventWithProperties(e, kw).value, query) == FilterProperties(e, query)
  {
  }
}
