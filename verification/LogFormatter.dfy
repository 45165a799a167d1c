/** `LogFormatter`: one cell per template, filled at most once each by a sequence of contexts. */
module LogFormatter {
  import opened Common
  import opened Grammar
  import opened FormatParser

  type Byte = n: int | 0 <= n < 256

  /** A cell; `Unset` is the source's `StringType::None`. */
  datatype Cell = Smol(text: string) | Bytes(bytes: seq<Byte>) | Array(text: string) | Unset

  /** A JSON value; numbers and compound values come with the text they are shown as. */
  datatype Json =
    | Null
    | Bool(flag: bool)
    | Number(numeral: Option<string>)
    | String(text: string)
    | Compound(shown: string)

  /** One call of `with_context`, `with_value` (on an object, or on anything else) or `with_custom_value`. */
  datatype Fill =
    | FromContext(eval: Operator -> Cell)
    | FromValue(fields: Option<map<string, Json>>)
    | FromPair(key: string, value: string)

  function JsonCell(value: Json): Cell {
    match value
    case Null => Unset
    case Bool(b) => Smol(if b then "true" else "false")
    case Number(shown) => if shown.Some? then Smol(shown.value) else Unset
    case String(s) => Smol(s)
    case Compound(shown) => Smol(shown)
  }

  /** What a call has to offer for a template. */
  function Offer(fill: Fill, t: Template): Cell {
    match fill
    case FromContext(eval) => if t.Placeholder? then eval(t.op) else Unset
    case FromValue(fields) =>
      if t.Custom? && fields.Some? && t.name in fields.value then JsonCell(fields.value[t.name]) else Unset
    case FromPair(key, value) => if t.Custom? && t.name == key && value != "null" then Smol(value) else Unset
  }

  function Initial(templates: seq<Template>): seq<Cell> {
    seq(|templates|,
        i requires 0 <= i < |templates| => if IsLit(templates[i]) then Smol(LitText(templates[i])) else Unset)
  }

  function FillCell(t: Template, cell: Cell, fill: Fill): Cell {
    if cell.Unset? && !IsLit(t) then Offer(fill, t) else cell
  }

  function Filled(templates: seq<Template>, format: seq<Cell>, fill: Fill): seq<Cell>
    requires |format| == |templates|
  {
    seq(|format|, i requires 0 <= i < |format| => FillCell(templates[i], format[i], fill))
  }

  /** `Debug` of an operator, as the error message shows it. */
  function DebugText(op: Operator): string {
    match op
    case Named(name) => name
    case RequestScheme => "RequestScheme"
    case RequestMethod => "RequestMethod"
    case RequestPath => "RequestPath"
    case RequestOriginalPathOrPath => "RequestOriginalPathOrPath"
    case RequestAuthority => "RequestAuthority"
    case Request(header) => "Request(HeaderName(\"" + header + "\"))"
    case ResponseStatus => "ResponseStatus"
    case Response(header) => "Response(HeaderName(\"" + header + "\"))"
  }

  predicate Unsupported(t: Template) {
    t.Placeholder? && t.category == UNSUPPORTED
  }

  /** `try_new`: a format compiles when its text does and no placeholder in it is unsupported; the
      first unsupported one is reported. */
  method TryNew(cfg: Config, input: string) returns (r: Compiled<(seq<Template>, seq<Cell>)>)
    ensures r.Ok? <==>
      && Parsed(cfg, input).Ok?
      && forall i :: 0 <= i < |Parsed(cfg, input).value| ==> !Unsupported(Parsed(cfg, input).value[i])
    ensures r.Ok? ==> r.value.0 == Parsed(cfg, input).value && r.value.1 == Initial(r.value.0)
    ensures r.Err? && Parsed(cfg, input).Err? ==> r.error == Parsed(cfg, input).error
    ensures r.Err? && Parsed(cfg, input).Ok? ==>
      exists i :: 0 <= i < |Parsed(cfg, input).value| && Unsupported(Parsed(cfg, input).value[i])
        && r.error == UnsupportedOperator(DebugText(Parsed(cfg, input).value[i].op))
        && forall j :: 0 <= j < i ==> !Unsupported(Parsed(cfg, input).value[j])
  {
    var parsed := Parse(cfg, input);
    if parsed.Err? { return Err(parsed.error); }
    var templates := parsed.value;
    for i := 0 to |templates|
      invariant forall j :: 0 <= j < i ==> !Unsupported(templates[j])
    {
      if Unsupported(templates[i]) { return Err(UnsupportedOperator(DebugText(templates[i].op))); }
    }
    var format: seq<Cell> := [];
    for i := 0 to |templates|
      invariant format == Initial(templates)[..i]
    {
      format := format + [if IsLit(templates[i]) then Smol(LitText(templates[i])) else Unset];
    }
    return Ok((templates, format));
  }

  class Formatter {
    const templates: seq<Template>
    const omitEmptyValues: bool
    var format: seq<Cell>

    predicate Valid()
      reads this
    {
      |format| == |templates|
    }

    constructor (templates: seq<Template>, omitEmptyValues: bool)
      ensures Valid() && this.templates == templates && this.omitEmptyValues == omitEmptyValues
      ensures format == Initial(templates)
    {
      this.templates, this.omitEmptyValues := templates, omitEmptyValues;
      format := Initial(templates);
    }

    method WithContext(eval: Operator -> Cell)
      requires Valid()
      modifies this`format
      ensures Valid() && format == Filled(templates, old(format), FromContext(eval))
    {
      ghost var goal := Filled(templates, format, FromContext(eval));
      for i := 0 to |templates|
        invariant Valid()
        invariant forall j :: 0 <= j < |format| ==> format[j] == if j < i then goal[j] else old(format)[j]
      {
        if templates[i].Placeholder? && format[i].Unset? {
          var res := eval(templates[i].op);
          if !res.Unset? { format := format[i := res]; }
        }
      }
    }

    method WithValue(fields: Option<map<string, Json>>)
      requires Valid()
      modifies this`format
      ensures Valid() && format == Filled(templates, old(format), FromValue(fields))
    {
      ghost var goal := Filled(templates, format, FromValue(fields));
      if fields.None? { assert format == goal; return; }
      for i := 0 to |templates|
        invariant Valid()
        invariant forall j :: 0 <= j < |format| ==> format[j] == if j < i then goal[j] else old(format)[j]
      {
        if templates[i].Custom? && templates[i].name in fields.value && format[i].Unset? {
          var res := JsonCell(fields.value[templates[i].name]);
          if !res.Unset? { format := format[i := res]; }
        }
      }
    }

    method WithCustomValue(key: string, value: string)
      requires Valid()
      modifies this`format
      ensures Valid() && format == Filled(templates, old(format), FromPair(key, value))
    {
      ghost var goal := Filled(templates, format, FromPair(key, value));
      for i := 0 to |templates|
        invariant Valid()
        invariant forall j :: 0 <= j < |format| ==> format[j] == if j < i then goal[j] else old(format)[j]
      {
        if templates[i].Custom? && templates[i].name == key && format[i].Unset? && value != "null" {
          format := format[i := Smol(value)];
        }
      }
    }
  }

  // ---- Any sequence of calls ----

  function FilledAll(templates: seq<Template>, format: seq<Cell>, fills: seq<Fill>): (r: seq<Cell>)
    requires |format| == |templates|
    ensures |r| == |templates|
    decreases |fills|
  {
    if fills == [] then format else FilledAll(templates, Filled(templates, format, fills[0]), fills[1..])
  }

  /** The first call that has something to offer for a template decides. */
  function FirstOffer(fills: seq<Fill>, t: Template): Cell {
    if fills == [] then Unset
    else if !Offer(fills[0], t).Unset? then Offer(fills[0], t)
    else FirstOffer(fills[1..], t)
  }

  lemma {:induction false} FillsFrom(templates: seq<Template>, format: seq<Cell>, fills: seq<Fill>, i: nat)
    requires |format| == |templates| && i < |templates|
    ensures FilledAll(templates, format, fills)[i]
         == if IsLit(templates[i]) || !format[i].Unset? then format[i] else FirstOffer(fills, templates[i])
    decreases |fills|
  {
    if fills == [] {
    } else {
      FillsFrom(templates, Filled(templates, format, fills[0]), fills[1..], i);
    }
  }

  /** After any calls in any order, literals are as compiled and every placeholder holds the first
      answer it was given, or nothing if there was none. */
  lemma {:induction false} FirstAnswerWins(templates: seq<Template>, fills: seq<Fill>, i: nat)
    requires i < |templates|
    ensures FilledAll(templates, Initial(templates), fills)[i]
         == if IsLit(templates[i]) then Smol(LitText(templates[i])) else FirstOffer(fills, templates[i])
  {
    FillsFrom(templates, Initial(templates), fills, i);
  }

  /** Calls of the two families never compete for a cell, so neighbours of different families can be
      swapped anywhere in a sequence of calls. */
  lemma {:induction false} FamiliesCommute(templates: seq<Template>, format: seq<Cell>, before: seq<Fill>, a: Fill,
                                           b: Fill, after: seq<Fill>)
    requires |format| == |templates| && a.FromContext? && !b.FromContext?
    ensures FilledAll(templates, format, before + [a, b] + after)
      == FilledAll(templates, format, before + [b, a] + after)
    decreases |before|
  {
    var one, two := before + [a, b] + after, before + [b, a] + after;
    if before == [] {
      assert one[1..][1..] == after && two[1..][1..] == after;
      var left := Filled(templates, Filled(templates, format, a), b);
      var right := Filled(templates, Filled(templates, format, b), a);
      assert left == right;
      assert FilledAll(templates, format, one) == FilledAll(templates, left, after);
      assert FilledAll(templates, format, two) == FilledAll(templates, right, after);
    } else {
      assert one[1..] == before[1..] + [a, b] + after && two[1..] == before[1..] + [b, a] + after;
      FamiliesCommute(templates, Filled(templates, format, before[0]), before[1..], a, b, after);
    }
  }
}
