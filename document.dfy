/** The entities of a parsed subtitle document, as the action library sees them. */
module Document {

  /** A Python value held in the document's info mapping or passed as a keyword argument:
      an int, a bool, a str, a float (its exact value) or None. */
  datatype Value = Int(i: int) | Bool(b: bool) | Str(s: string) | Float(f: real) | NoneValue

  /** Python's `b == v` for a bool b: bool is a subclass of int, so True == 1 and True == 1.0,
      False == 0 and False == 0.0, while a bool never equals a string or None. */
  predicate BoolEquals(b: bool, v: Value) {
    match v
    case Bool(c) => b == c
    case Int(i) => i == (if b then 1 else 0)
    case Float(f) => f == (if b then 1.0 else 0.0)
    case Str(_) => false
    case NoneValue => false
  }

  /** A style record. `id` stands for the object's identity (Python's `is`); two styles with
      equal fields and different ids are different objects. Attributes other than the font size
      and the margins live in `extra`. */
  datatype Style = Style(
    id: nat,
    fontsize: int,
    marginv: int,
    marginl: int,
    marginr: int,
    extra: map<string, Value>)

  /** An event (one cue). `style` is the name of the style it refers to. */
  datatype Event = Event(
    id: nat,
    style: string,
    text: string,
    marginv: int,
    marginl: int,
    marginr: int,
    isComment: bool,
    isDrawing: bool,
    extra: map<string, Value>)

  /** The exceptions the modelled operations raise, and the model's own refusal of a wrongly
      typed attribute. */
  datatype Error =
    | ZeroDivision      // a zero reference dimension in a scale action
    | MaxOfEmpty        // `max` of the counts of a document without events
    | NotInList         // `list.remove` of an event the document does not hold
    | DictChangedSize   // a key deleted from the styles dict while iterating over it
    | WrongType         // not raised by the source: the model refuses a typed attribute given a value of another type
    | PositionRewrite   // the position step of an event scale failed
}
