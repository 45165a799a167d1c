/** `AccessLogGrammar::parse`: from the pieces of module `Grammar` to templates, and back. */
module FormatParser {
  import opened Common
  import opened Grammar

  /** A one-character literal is kept as a character. */
  function Lit(text: string): Template {
    if |text| == 1 then Char(text[0]) else Literal(text)
  }

  /** `replace("%%", "%")`. */
  function Halve(raw: string): string {
    if |raw| < 2 then raw
    else if raw[..2] == "%%" then "%" + Halve(raw[2..])
    else raw[..1] + Halve(raw[1..])
  }

  /** Adjacent units make one literal. Before a placeholder it is kept as written; only after the
      last one are doubled percent signs halved. */
  function Group(pending: string, items: seq<Item>): seq<Template>
    decreases |items|
  {
    if items == [] then (if pending == "" then [] else [Lit(Halve(pending))])
    else
      match items[0]
      case Unit(raw) => Group(pending + raw, items[1..])
      case Slot(_, t) => (if pending == "" then [] else [Lit(pending)]) + [t] + Group("", items[1..])
  }

  function Finish(parts: seq<Template>, pending: string, scanned: Compiled<seq<Item>>): Compiled<seq<Template>> {
    match scanned
    case Ok(items) => Ok(parts + Group(pending, items))
    case Err(e) => Err(e)
  }

  function Parsed(cfg: Config, input: string): Compiled<seq<Template>> {
    Finish([], "", Scan(cfg, input))
  }

  lemma {:induction false} FinishUnit(parts: seq<Template>, pending: string, raw: string, rest: Compiled<seq<Item>>)
    ensures Finish(parts, pending, Then(Unit(raw), rest)) == Finish(parts, pending + raw, rest)
  {
    if rest.Ok? { assert ([Unit(raw)] + rest.value)[1..] == rest.value; }
  }

  lemma {:induction false} FinishSlot(parts: seq<Template>, pending: string, raw: string, t: Template,
                                      rest: Compiled<seq<Item>>)
    ensures Finish(parts, pending, Then(Slot(raw, t), rest))
         == Finish(parts + (if pending == "" then [] else [Lit(pending)]) + [t], "", rest)
  {
    if rest.Ok? {
      assert ([Slot(raw, t)] + rest.value)[1..] == rest.value;
      var before, after := if pending == "" then [] else [Lit(pending)], Group("", rest.value);
      assert parts + (before + [t] + after) == parts + before + [t] + after;
    }
  }

  /** Where the parser is: the templates so far, the start of the pending literal, the position. */
  datatype Cursor = Cursor(parts: seq<Template>, literalStart: nat, position: nat)

  predicate Within(input: string, at: Cursor) {
    at.literalStart <= at.position <= |input|
  }

  /** What parsing the rest of the input from here would give. */
  ghost function Outcome(read: Reader, input: string, at: Cursor): Compiled<seq<Template>>
    requires Proper(read) && Within(input, at)
  {
    Rest(input, at, Pieces(read, input[at.position..]))
  }

  ghost function Rest(input: string, at: Cursor, scanned: Compiled<seq<Item>>): Compiled<seq<Template>>
    requires Within(input, at)
  {
    Finish(at.parts, input[at.literalStart..at.position], scanned)
  }

  function NextCursor(input: string, at: Cursor, piece: Item): Cursor
    requires Within(input, at)
  {
    var position := at.position + |piece.raw|;
    if piece.Unit? then at.(position := position)
    else
      var literal := if at.position > at.literalStart then [Lit(input[at.literalStart..at.position])] else [];
      Cursor(at.parts + literal + [piece.template], position, position)
  }

  lemma {:induction false} NextUnit(input: string, at: Cursor, raw: string, rest: Compiled<seq<Item>>)
    requires Within(input, at) && at.position + |raw| <= |input| && raw == input[at.position..at.position + |raw|]
    ensures Rest(input, at, Then(Unit(raw), rest)) == Rest(input, NextCursor(input, at, Unit(raw)), rest)
  {
    var pending := input[at.literalStart..at.position];
    FinishUnit(at.parts, pending, raw, rest);
    assert pending + raw == input[at.literalStart..at.position + |raw|];
  }

  lemma {:induction false} NextSlot(input: string, at: Cursor, raw: string, t: Template, rest: Compiled<seq<Item>>)
    requires Within(input, at) && at.position + |raw| <= |input|
    ensures Rest(input, at, Then(Slot(raw, t), rest)) == Rest(input, NextCursor(input, at, Slot(raw, t)), rest)
  {
    var pending, next := input[at.literalStart..at.position], NextCursor(input, at, Slot(raw, t));
    FinishSlot(at.parts, pending, raw, t, rest);
    assert input[next.literalStart..next.position] == "";
    assert next.parts == at.parts + (if pending == "" then [] else [Lit(pending)]) + [t];
  }

  /** One piece further, the rest of the input gives what it gave before. */
  lemma {:induction false} NextFinishes(input: string, at: Cursor, piece: Item, rest: Compiled<seq<Item>>)
    requires Within(input, at) && at.position + |piece.raw| <= |input|
    requires piece.raw == input[at.position..at.position + |piece.raw|]
    ensures Rest(input, at, Then(piece, rest)) == Rest(input, NextCursor(input, at, piece), rest)
  {
    match piece
    case Unit(raw) => NextUnit(input, at, raw, rest);
    case Slot(raw, t) => NextSlot(input, at, raw, t, rest);
  }

  lemma {:induction false} PieceAt(read: Reader, input: string, i: nat)
    requires Proper(read) && i < |input| && read(input[i..]).Ok?
    ensures
      var piece := read(input[i..]).value;
      && 1 <= |piece.raw| && i + |piece.raw| <= |input| && piece.raw == input[i..i + |piece.raw|]
      && Pieces(read, input[i..]) == Then(piece, Pieces(read, input[i + |piece.raw|..]))
  {
    var text, piece := input[i..], read(input[i..]).value;
    assert IsStart(piece.raw, text);
    assert text[|piece.raw|..] == input[i + |piece.raw|..];
  }

  /** What the loop's body reads at a position: a character or an escape to keep, or a placeholder. */
  method ReadPiece(cfg: Config, text: string) returns (r: Compiled<Item>)
    requires text != ""
    ensures r == Reading(cfg)(text)
  {
    if text[0] != '%' { return Ok(Unit(text[..1])); }
    match TokenAt(cfg, text) {
      case Bad(e) => return Err(e);
      case Escape => return Ok(Unit(text[..2]));
      case Found(t, length) => return Ok(Slot(text[..length], t));
    }
  }

  method Advance(input: string, at: Cursor, piece: Item) returns (next: Cursor)
    requires Within(input, at)
    ensures next == NextCursor(input, at, piece)
  {
    var i, parts := at.position, at.parts;
    if piece.Unit? { return at.(position := i + |piece.raw|); }
    assert parts + [] == parts;
    if i > at.literalStart { parts := parts + [Lit(input[at.literalStart..i])]; }
    parts := parts + [piece.template];
    return Cursor(parts, i + |piece.raw|, i + |piece.raw|);
  }

  lemma {:induction false} PieceKeepsOutcome(read: Reader, input: string, at: Cursor)
    requires Proper(read) && Within(input, at) && at.position < |input|
    ensures
      var first := read(input[at.position..]);
      if first.Err? then Outcome(read, input, at) == Err(first.error)
      else
        var next := NextCursor(input, at, first.value);
        Within(input, next) && next.position > at.position && Outcome(read, input, next) == Outcome(read, input, at)
  {
    var first := read(input[at.position..]);
    if first.Ok? {
      PieceAt(read, input, at.position);
      var next := NextCursor(input, at, first.value);
      var rest := Pieces(read, input[next.position..]);
      calc {
        Outcome(read, input, at);
        Rest(input, at, Then(first.value, rest));
        { NextFinishes(input, at, first.value, rest); }
        Rest(input, next, rest);
        Outcome(read, input, next);
      }
    }
  }

  /** One round of the loop, from any position, leaves the outcome what it was. */
  method ParseRound(cfg: Config, input: string, at: Cursor) returns (next: Compiled<Cursor>)
    requires Within(input, at) && at.position < |input|
    ensures next.Err? ==> Outcome(Reading(cfg), input, at) == Err(next.error)
    ensures next.Ok? ==> Within(input, next.value) && next.value.position > at.position
    ensures next.Ok? ==> Outcome(Reading(cfg), input, next.value) == Outcome(Reading(cfg), input, at)
  {
    var first := ReadPiece(cfg, input[at.position..]);
    PieceKeepsOutcome(Reading(cfg), input, at);
    if first.Err? { return Err(first.error); }
    var step := Advance(input, at, first.value);
    return Ok(step);
  }

  method Parse(cfg: Config, input: string) returns (r: Compiled<seq<Template>>)
    ensures r == Parsed(cfg, input)
  {
    var at := Cursor([], 0, 0);
    assert input[0..] == input && input[0..0] == "";
    while at.position < |input|
      invariant Within(input, at) && Outcome(Reading(cfg), input, at) == Parsed(cfg, input)
    {
      var next := ParseRound(cfg, input, at);
      if next.Err? { return Err(next.error); }
      at := next.value;
    }
    assert input[at.position..] == "" && at.parts + [] == at.parts;
    var parts := at.parts;
    if at.position > at.literalStart { parts := parts + [Lit(Halve(input[at.literalStart..at.position]))]; }
    return Ok(parts);
  }

  lemma {:induction false} ParsedPieces(cfg: Config, input: string, items: seq<Item>)
    requires Scan(cfg, input) == Ok(items)
    ensures Parsed(cfg, input) == Ok(Group("", items))
  {
    assert [] + Group("", items) == Group("", items);
  }

  /** A text compiles to some templates just when it is written as pieces that group to them. */
  lemma {:induction false} ParseExact(cfg: Config, input: string, ts: seq<Template>)
    requires ValidConfig(cfg)
    ensures Parsed(cfg, input) == Ok(ts)
       <==> exists items :: Text(items) == input && ItemsOk(cfg, items) && Group("", items) == ts
  {
    if Parsed(cfg, input) == Ok(ts) {
      var items := Scan(cfg, input).value;
      LexExact(cfg, input, items);
      ParsedPieces(cfg, input, items);
    }
    forall items | Text(items) == input && ItemsOk(cfg, items) && Group("", items) == ts
      ensures Parsed(cfg, input) == Ok(ts)
    {
      LexExact(cfg, input, items);
      ParsedPieces(cfg, input, items);
    }
  }

  // ---- Printing ----

  predicate IsLit(t: Template) {
    t.Char? || t.Literal?
  }

  function LitText(t: Template): string
    requires IsLit(t)
  {
    if t.Char? then [t.c] else t.text
  }

  /** Text in which percent signs come in pairs. */
  predicate IsUnits(text: string) {
    || text == ""
    || (text[0] != '%' && IsUnits(text[1..]))
    || (|text| >= 2 && text[0] == '%' == text[1] && IsUnits(text[2..]))
  }

  function UnitsOf(text: string): seq<Item>
    requires IsUnits(text)
  {
    if text == "" then []
    else if text[0] != '%' then [Unit(text[..1])] + UnitsOf(text[1..])
    else [Unit(text[..2])] + UnitsOf(text[2..])
  }

  function Double(text: string): string {
    if text == "" then "" else (if text[0] == '%' then "%%" else text[..1]) + Double(text[1..])
  }

  ghost predicate Printable(cfg: Config, t: Template) {
    exists raw :: Writes(cfg, raw, t)
  }

  ghost function Writing(cfg: Config, t: Template): (raw: string)
    requires Printable(cfg, t)
    ensures Writes(cfg, raw, t)
  {
    var raw :| Writes(cfg, raw, t);
    raw
  }

  ghost predicate NormalAlone(cfg: Config, t: Template) {
    if IsLit(t) then t == Lit(LitText(t)) && LitText(t) != "" else Printable(cfg, t)
  }

  /** Template lists the compiler can produce: literals are not empty, not adjacent and in their
      one-character form when they can be, and hold single percent signs only at the end. */
  ghost predicate Normal(cfg: Config, ts: seq<Template>) {
    && (forall i :: 0 <= i < |ts| ==> NormalAlone(cfg, ts[i]))
    && (forall i :: 0 <= i < |ts| - 1 && IsLit(ts[i]) ==> IsUnits(LitText(ts[i])) && !IsLit(ts[i + 1]))
  }

  ghost function Print(cfg: Config, ts: seq<Template>): string
    requires Normal(cfg, ts)
    decreases |ts|
  {
    if ts == [] then ""
    else if !IsLit(ts[0]) then Writing(cfg, ts[0]) + Print(cfg, ts[1..])
    else if |ts| == 1 then Double(LitText(ts[0]))
    else LitText(ts[0]) + Print(cfg, ts[1..])
  }

  lemma {:induction false} DoubleHalves(text: string)
    ensures IsUnits(Double(text)) && Halve(Double(text)) == text
  {
    if text == "" {
    } else {
      DoubleHalves(text[1..]);
      var doubled, rest := Double(text), Double(text[1..]);
      if text[0] == '%' { assert doubled[..2] == "%%" && doubled[2..] == rest; }
      else { assert doubled[0] == text[0] && doubled[1..] == rest && doubled[..1] == text[..1]; }
      if |doubled| >= 2 && text[0] != '%' { assert doubled[..2][0] != '%'; }
      assert text == text[..1] + text[1..];
    }
  }

  lemma {:induction false} TextConcat(a: seq<Item>, b: seq<Item>)
    ensures Text(a + b) == Text(a) + Text(b)
  {
    if a == [] { assert a + b == b; }
    else { assert (a + b)[1..] == a[1..] + b; TextConcat(a[1..], b); }
  }

  lemma {:induction false} UnitsOfStep(text: string, n: nat)
    requires IsUnits(text) && text != "" && n == if text[0] != '%' then 1 else 2
    ensures n <= |text| && IsUnits(text[n..]) && UnitsOf(text) == [Unit(text[..n])] + UnitsOf(text[n..])
    ensures if n == 1 then text[..n][0] != '%' else text[..n] == "%%"
  {
    if n == 2 { assert text[..n] == "%%"; }
  }

  lemma {:induction false} UnitsAreText(cfg: Config, text: string)
    requires IsUnits(text)
    ensures Text(UnitsOf(text)) == text && ItemsOk(cfg, UnitsOf(text)) && AllUnits(UnitsOf(text))
    decreases |text|
  {
    if text == "" {
    } else {
      var n := if text[0] != '%' then 1 else 2;
      UnitsOfStep(text, n);
      UnitsAreText(cfg, text[n..]);
      TextStep(cfg, Unit(text[..n]), UnitsOf(text[n..]));
      assert text == text[..n] + text[n..];
    }
  }

  ghost predicate AllUnits(items: seq<Item>) {
    forall i :: 0 <= i < |items| ==> items[i].Unit?
  }

  lemma {:induction false} GroupUnits(units: seq<Item>, rest: seq<Item>, pending: string)
    requires AllUnits(units)
    ensures Group(pending, units + rest) == Group(pending + Text(units), rest)
    decreases |units|
  {
    if units == [] {
      assert units + rest == rest && pending + "" == pending;
    } else {
      var raw := units[0].raw;
      assert (units + rest)[1..] == units[1..] + rest;
      GroupUnits(units[1..], rest, pending + raw);
      assert pending + raw + Text(units[1..]) == pending + Text(units);
    }
  }

  /** Printing is undone by parsing: every normal-form template list is read back from its text. */
  lemma {:induction false} RoundTrip(cfg: Config, ts: seq<Template>)
    requires ValidConfig(cfg) && Normal(cfg, ts)
    ensures Parsed(cfg, Print(cfg, ts)) == Ok(ts)
  {
    var items := PrintedItems(cfg, ts);
    LexExact(cfg, Print(cfg, ts), items);
    ParsedPieces(cfg, Print(cfg, ts), items);
  }

  /** The pieces a printed list consists of. */
  lemma {:induction false} PrintedItems(cfg: Config, ts: seq<Template>) returns (items: seq<Item>)
    requires Normal(cfg, ts)
    ensures Text(items) == Print(cfg, ts) && ItemsOk(cfg, items) && Group("", items) == ts
    ensures ts != [] && !IsLit(ts[0]) ==> items != [] && items[0].Slot?
    decreases |ts|
  {
    if ts == [] {
      items := [];
    } else if IsLit(ts[0]) && |ts| == 1 {
      PrintedLast(cfg, ts[0]);
      items := UnitsOf(Double(LitText(ts[0])));
      assert ts == [ts[0]];
    } else {
      NormalTail(cfg, ts);
      var rest := PrintedItems(cfg, ts[1..]);
      assert ts == [ts[0]] + ts[1..];
      if IsLit(ts[0]) {
        items := UnitsOf(LitText(ts[0])) + rest;
        PrintedLiteral(cfg, LitText(ts[0]), rest);
      } else {
        items := [Slot(Writing(cfg, ts[0]), ts[0])] + rest;
        PrintedSlot(cfg, Writing(cfg, ts[0]), ts[0], rest);
      }
    }
  }

  lemma {:induction false} NormalTail(cfg: Config, ts: seq<Template>)
    requires Normal(cfg, ts) && ts != []
    ensures Normal(cfg, ts[1..])
  {
    var rest := ts[1..];
    assert forall i :: 0 <= i < |rest| ==> rest[i] == ts[i + 1];
  }

  lemma {:induction false} PrintedSlot(cfg: Config, raw: string, t: Template, rest: seq<Item>)
    requires Writes(cfg, raw, t) && ItemsOk(cfg, rest)
    ensures
      var items := [Slot(raw, t)] + rest;
      Text(items) == raw + Text(rest) && ItemsOk(cfg, items) && Group("", items) == [t] + Group("", rest)
  {
    TextStep(cfg, Slot(raw, t), rest);
    GroupSlot(raw, t, rest);
  }

  lemma {:induction false} GroupSlot(raw: string, t: Template, rest: seq<Item>)
    ensures Group("", [Slot(raw, t)] + rest) == [t] + Group("", rest)
  {
    assert ([Slot(raw, t)] + rest)[1..] == rest;
    assert [] + [t] + Group("", rest) == [t] + Group("", rest);
  }

  lemma {:induction false} PrintedLast(cfg: Config, t: Template)
    requires IsLit(t) && LitText(t) != "" && t == Lit(LitText(t))
    ensures
      var text := Double(LitText(t));
      && IsUnits(text) && Text(UnitsOf(text)) == text && ItemsOk(cfg, UnitsOf(text)) && Group("", UnitsOf(text)) == [t]
  {
    var text := Double(LitText(t));
    DoubleHalves(LitText(t));
    UnitsAreText(cfg, text);
    GroupUnits(UnitsOf(text), [], "");
    assert UnitsOf(text) + [] == UnitsOf(text) && "" + text == text && text != "";
  }

  lemma {:induction false} PrintedLiteral(cfg: Config, text: string, rest: seq<Item>)
    requires IsUnits(text) && text != "" && ItemsOk(cfg, rest) && rest != [] && rest[0].Slot?
    ensures
      var items := UnitsOf(text) + rest;
      && Text(items) == text + Text(rest) && ItemsOk(cfg, items) && Group("", items) == [Lit(text)] + Group("", rest)
  {
    UnitsAreText(cfg, text);
    GroupUnits(UnitsOf(text), rest, "");
    TextConcat(UnitsOf(text), rest);
    assert "" + text == text;
    GroupAfterLiteral(text, rest);
  }

  lemma {:induction false} GroupAfterLiteral(pending: string, items: seq<Item>)
    requires pending != "" && items != [] && items[0].Slot?
    ensures Group(pending, items) == [Lit(pending)] + Group("", items)
  {
  }

  // ---- What compiling can give ----

  lemma {:induction false} UnitsAppend(a: string, b: string)
    requires IsUnits(a) && IsUnits(b)
    ensures IsUnits(a + b)
    decreases |a|
  {
    if a == "" {
      assert a + b == b;
    } else {
      var n := if a[0] != '%' then 1 else 2;
      UnitsAppend(a[n..], b);
      assert (a + b)[n..] == a[n..] + b;
    }
  }

  lemma {:induction false} NormalCons(cfg: Config, t: Template, rest: seq<Template>)
    requires Normal(cfg, rest) && NormalAlone(cfg, t)
    requires IsLit(t) && rest != [] ==> IsUnits(LitText(t)) && !IsLit(rest[0])
    ensures Normal(cfg, [t] + rest)
  {
    var all := [t] + rest;
    forall i | 0 <= i < |all| ensures NormalAlone(cfg, all[i]) {
      if i > 0 { assert all[i] == rest[i - 1]; }
    }
    forall i | 0 <= i < |all| - 1 && IsLit(all[i]) ensures IsUnits(LitText(all[i])) && !IsLit(all[i + 1]) {
      assert all[i + 1] == rest[i];
      if i > 0 { assert all[i] == rest[i - 1]; }
    }
  }

  lemma {:induction false} LitIsNormal(cfg: Config, text: string)
    requires text != ""
    ensures IsLit(Lit(text)) && LitText(Lit(text)) == text && NormalAlone(cfg, Lit(text))
  {
    if |text| == 1 { assert [text[0]] == text; }
  }

  lemma {:induction false} GroupIsNormal(cfg: Config, pending: string, items: seq<Item>)
    requires ItemsOk(cfg, items) && IsUnits(pending)
    ensures Normal(cfg, Group(pending, items))
    decreases |items|
  {
    if items == [] {
      if pending != "" {
        LitIsNormal(cfg, Halve(pending));
        NormalCons(cfg, Lit(Halve(pending)), []);
      }
    } else {
      assert ItemOk(cfg, items[0]);
      match items[0]
      case Unit(raw) =>
        UnitIsUnits(cfg, raw);
        UnitsAppend(pending, raw);
        GroupIsNormal(cfg, pending + raw, items[1..]);
      case Slot(raw, t) =>
        GroupIsNormal(cfg, "", items[1..]);
        SlotIsNormal(cfg, pending, raw, t, Group("", items[1..]));
    }
  }

  lemma {:induction false} UnitIsUnits(cfg: Config, raw: string)
    requires ItemOk(cfg, Unit(raw))
    ensures IsUnits(raw)
  {
    assert IsUnits(raw[|raw|..]);
  }

  lemma {:induction false} SlotIsNormal(cfg: Config, pending: string, raw: string, t: Template, rest: seq<Template>)
    requires Writes(cfg, raw, t) && IsUnits(pending) && Normal(cfg, rest)
    ensures Normal(cfg, (if pending == "" then [] else [Lit(pending)]) + [t] + rest)
  {
    NormalCons(cfg, t, rest);
    if pending == "" {
      assert [] + [t] + rest == [t] + rest;
    } else {
      LitIsNormal(cfg, pending);
      NormalCons(cfg, Lit(pending), [t] + rest);
      assert [Lit(pending)] + [t] + rest == [Lit(pending)] + ([t] + rest);
    }
  }

  /** The normal-form lists are exactly those that compiling some text gives. */
  lemma {:induction false} NormalExactly(cfg: Config, ts: seq<Template>)
    requires ValidConfig(cfg)
    ensures Normal(cfg, ts) <==> exists input :: Parsed(cfg, input) == Ok(ts)
  {
    if Normal(cfg, ts) {
      RoundTrip(cfg, ts);
    }
    forall input | Parsed(cfg, input) == Ok(ts) ensures Normal(cfg, ts) {
      ParseExact(cfg, input, ts);
      var items: seq<Item> :| Text(items) == input && ItemsOk(cfg, items) && Group("", items) == ts;
      GroupIsNormal(cfg, "", items);
    }
  }

  /** The arguments with a meaning of their own, of the operator an entry stands for. */
  function SpecialArgs(cfg: Config, entry: Entry): set<string> {
    if entry.TakesResponse? then cfg.responseArgs.Keys else cfg.requestArgs.Keys
  }

  function HeaderOf(entry: Entry, header: string): Operator {
    if entry.TakesResponse? then Response(header) else Request(header)
  }

  /** Lower-case field names are printed with the operator that takes them and read back, unless a
      special argument is a prefix of them. */
  lemma {:induction false} HeaderIsPrintable(cfg: Config, name: string, header: string)
    requires name in cfg.operators && !cfg.operators[name].Plain?
    requires 0 < |header| <= MAX_HEADER_NAME
    requires forall i :: 0 <= i < |header| ==> TokenChar(header[i]) && !('A' <= header[i] <= 'Z')
    requires forall k :: k in SpecialArgs(cfg, cfg.operators[name]) ==> !(k <= header)
    ensures Writes(cfg, WithArg(name, header),
                   Placeholder(HeaderOf(cfg.operators[name], header), cfg.operators[name].category))
  {
    var entry := cfg.operators[name];
    HeaderParses(cfg, entry, header);
    var t := Placeholder(HeaderOf(entry, header), entry.category);
    assert ')' !in header by { forall i | 0 <= i < |header| ensures header[i] != ')' { assert TokenChar(header[i]); } }
    assert ArgMeans(cfg, entry, header, t);
    assert WritesWithArg(cfg, WithArg(name, header), t);
  }

  lemma {:induction false} HeaderParses(cfg: Config, entry: Entry, header: string)
    requires 0 < |header| <= MAX_HEADER_NAME
    requires forall i :: 0 <= i < |header| ==> TokenChar(header[i]) && !('A' <= header[i] <= 'Z')
    requires forall k :: k in SpecialArgs(cfg, entry) ==> !(k <= header)
    ensures ParseArg(cfg, entry, header) == Ok(HeaderOf(entry, header))
  {
    assert LowerAll(header) == header && HeaderName(header) == Some(header);
    var longest := LongestPrefix(SpecialArgs(cfg, entry), header, |header|);
    assert longest.None?;
  }

  // ---- Custom operators ----

  /** What `set_custom_operators` lets through. */
  ghost predicate Registered(cfg: Config, name: string) {
    name in cfg.custom && '%' !in name && ' ' !in name && name !in cfg.operators
  }

  lemma {:induction false} GroupKeepsSlots(pending: string, items: seq<Item>, t: Template)
    requires t in Group(pending, items) && !IsLit(t)
    ensures exists i :: 0 <= i < |items| && items[i].Slot? && items[i].template == t
    decreases |items|
  {
    if items == [] {
    } else {
      var rest := items[1..];
      if items[0].Unit? {
        GroupKeepsSlots(pending + items[0].raw, rest, t);
        var i :| 0 <= i < |rest| && rest[i].Slot? && rest[i].template == t;
        assert items[i + 1] == rest[i];
      } else if items[0].template != t {
        GroupKeepsSlots("", rest, t);
        var i :| 0 <= i < |rest| && rest[i].Slot? && rest[i].template == t;
        assert items[i + 1] == rest[i];
      }
    }
  }

  /** A custom operator can come out of compiling: it is registered, not empty, has no percent sign, and
      no built-in name is a prefix of it. */
  ghost predicate Usable(cfg: Config, name: string) {
    name in cfg.custom && name != "" && '%' !in name && forall k :: k in cfg.operators ==> !(k <= name)
  }

  lemma {:induction false} OneSlot(raw: string, t: Template)
    ensures Text([Slot(raw, t)]) == raw && Group("", [Slot(raw, t)]) == [t]
  {
    assert [Slot(raw, t)][1..] == [] && raw + "" == raw;
  }

  lemma {:induction false} CustomWasWrittenIn(cfg: Config, input: string, ts: seq<Template>, name: string)
    requires ValidConfig(cfg) && Parsed(cfg, input) == Ok(ts) && Custom(name) in ts
    ensures Usable(cfg, name)
  {
    ParseExact(cfg, input, ts);
    var items: seq<Item> :| Text(items) == input && ItemsOk(cfg, items) && Group("", items) == ts;
    GroupKeepsSlots("", items, Custom(name));
    var i :| 0 <= i < |items| && items[i].Slot? && items[i].template == Custom(name);
    assert ItemOk(cfg, items[i]);
  }

  lemma {:induction false} UsableCompiles(cfg: Config, name: string)
    requires ValidConfig(cfg) && Usable(cfg, name)
    ensures Parsed(cfg, "%" + name + "%") == Ok([Custom(name)])
  {
    var text := "%" + name + "%";
    var items := [Slot(text, Custom(name))];
    assert WritesCustom(cfg, text, Custom(name));
    OneSlot(text, Custom(name));
    assert Text(items) == text && ItemsOk(cfg, items) && Group("", items) == [Custom(name)];
    ParseExact(cfg, text, [Custom(name)]);
  }

  /** A registered custom operator is usable exactly when it is not empty and no built-in name is a
      prefix of it: registration only refuses names equal to a built-in one. */
  lemma {:induction false} CustomUsableExactly(cfg: Config, name: string)
    requires ValidConfig(cfg) && Registered(cfg, name)
    ensures Parsed(cfg, "%" + name + "%") == Ok([Custom(name)])
       <==> name != "" && forall k :: k in cfg.operators ==> !(k <= name)
  {
    if Parsed(cfg, "%" + name + "%") == Ok([Custom(name)]) {
      CustomWasWrittenIn(cfg, "%" + name + "%", [Custom(name)], name);
    }
    if Usable(cfg, name) { UsableCompiles(cfg, name); }
  }

  /** A name with a built-in name as a prefix never comes out of compiling, whatever the format. */
  lemma {:induction false} ShadowedCustomOperator(cfg: Config, builtIn: string, name: string, input: string)
    requires ValidConfig(cfg) && builtIn in cfg.operators && builtIn <= name
    ensures Parsed(cfg, input).Ok? ==> Custom(name) !in Parsed(cfg, input).value
  {
    if Parsed(cfg, input).Ok? && Custom(name) in Parsed(cfg, input).value {
      CustomWasWrittenIn(cfg, input, Parsed(cfg, input).value, name);
    }
  }

  /** For instance, beside the built-in `REQ` a registered `REQUEST_ZONE`. */
  lemma {:induction false} ShadowedZone(cfg: Config, input: string)
    requires ValidConfig(cfg) && "REQ" in cfg.operators && Registered(cfg, "REQUEST_ZONE")
    ensures Parsed(cfg, input).Ok? ==> Custom("REQUEST_ZONE") !in Parsed(cfg, input).value
  {
    assert "REQ" <= "REQUEST_ZONE";
    ShadowedCustomOperator(cfg, "REQ", "REQUEST_ZONE", input);
  }
}
