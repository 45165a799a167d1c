/** The access-log format compiler of `arion-format/src/grammar.rs`.

A format is literal text with placeholders: `%NAME%`, `%REQ(arg)%`, `%RESP(arg)%` and registered
custom names. `%%` is read as one piece of literal text, which stands for a percent sign after the
last placeholder only (module `FormatEscapes`). `LexExact` says that the compiler accepts exactly
the texts built that way and reads each in one way only. */
module Grammar {
  import opened Common

  /** What reading a format comes to. */
  type Compiled<T> = Result<T, FormatError>

  datatype FormatError =
    | InvalidOperator(text: string)
    | UnsupportedOperator(text: string)
    | MissingBracket(text: string)
    | MissingDelimiter(text: string)
    | EmptyArgument(text: string)
    | InvalidRequestArg(text: string)
    | InvalidResponseArg(text: string)

  datatype Category = OPERATOR | ARGUMENT | UNSUPPORTED

  /** Operators without an argument go by their name in the source. */
  datatype Operator =
    | Named(name: string)
    | RequestScheme | RequestMethod | RequestPath | RequestOriginalPathOrPath | RequestAuthority
    | Request(header: string)
    | ResponseStatus
    | Response(header: string)

  datatype Template =
    | Char(c: char)
    | Literal(text: string)
    | Placeholder(op: Operator, category: Category)
    | Custom(name: string)

  /** An entry of the operator trie; `REQ` and `RESP` are the two that take an argument. */
  datatype Entry =
    | Plain(op: Operator, category: Category)
    | TakesRequest(category: Category)
    | TakesResponse(category: Category)

  /** The tries of operators and of special arguments, and the registered custom names. */
  datatype Config = Config(
    operators: map<string, Entry>,
    requestArgs: map<string, Operator>,
    responseArgs: map<string, Operator>,
    custom: set<string>)

  /** No operator name is empty or contains one of the marks that end a name. */
  ghost predicate ValidConfig(cfg: Config) {
    forall name :: name in cfg.operators ==> name != "" && forall i :: 0 <= i < |name| ==> !Delimiter(name[i])
  }

  predicate Delimiter(c: char) {
    c == ' ' || c == '%' || c == '('
  }

  // ---- Searching ----

  /** `find_longest_prefix` of a trie. */
  function LongestPrefix(keys: set<string>, text: string, limit: nat): (r: Option<string>)
    requires limit <= |text|
    ensures r.Some? ==> r.value in keys && r.value <= text && |r.value| <= limit
    ensures r.Some? ==> forall k :: k in keys && k <= text && |k| <= limit ==> |k| <= |r.value|
    ensures r.None? ==> forall k :: k in keys && |k| <= limit ==> !(k <= text)
  {
    if text[..limit] in keys then Some(text[..limit])
    else
      assert forall k :: k <= text && |k| == limit ==> k == text[..limit];
      if limit == 0 then None else LongestPrefix(keys, text, limit - 1)
  }

  function FindFirst(text: string, test: char -> bool): (index: nat)
    ensures index <= |text|
    ensures forall i :: 0 <= i < index ==> !test(text[i])
    ensures index < |text| ==> test(text[index])
  {
    if text == "" || test(text[0]) then 0 else 1 + FindFirst(text[1..], test)
  }

  function Is(c: char): char -> bool {
    (d: char) => d == c
  }

  // ---- Arguments ----

  predicate TokenChar(c: char) {
    || 'a' <= c <= 'z' || 'A' <= c <= 'Z' || '0' <= c <= '9'
    || c in "!#$%&'*+-.^_`|~"
  }

  function Lower(c: char): char {
    if 'A' <= c <= 'Z' then (c as int + 32) as char else c
  }

  function LowerAll(s: string): string {
    seq(|s|, i requires 0 <= i < |s| => Lower(s[i]))
  }

  const MAX_HEADER_NAME := 0xFFFF

  /** A field name: a token of section 5.6.2 of RFC 9110, kept in lower case. */
  function HeaderName(arg: string): Option<string> {
    if 0 < |arg| <= MAX_HEADER_NAME && forall i :: 0 <= i < |arg| ==> TokenChar(arg[i])
    then Some(LowerAll(arg)) else None
  }

  function ParseRequest(cfg: Config, arg: string): Compiled<Operator> {
    match LongestPrefix(cfg.requestArgs.Keys, arg, |arg|)
    case Some(key) => Ok(cfg.requestArgs[key])
    case None =>
      match HeaderName(arg)
      case Some(name) => Ok(Request(name))
      case None => Err(InvalidRequestArg(arg))
  }

  function ParseResponse(cfg: Config, arg: string): Compiled<Operator> {
    match LongestPrefix(cfg.responseArgs.Keys, arg, |arg|)
    case Some(key) => Ok(cfg.responseArgs[key])
    case None =>
      match HeaderName(arg)
      case Some(name) => Ok(Response(name))
      case None => Err(InvalidResponseArg(arg))
  }

  /** The argument between the brackets that must open the text. */
  function ExtractOperatorArg(text: string): (r: Compiled<string>)
    ensures r.Ok? ==> r.value != "" && ')' !in r.value && ("(" + r.value + ")") <= text
    ensures r == Err(MissingBracket(text)) <==> text == "" || text[0] != '(' || ')' !in text[1..]
    ensures r == Err(EmptyArgument(text)) <==> "()" <= text
    ensures r.Err? ==> r.error == MissingBracket(text) || r.error == EmptyArgument(text)
  {
    if text == "" || text[0] != '(' then Err(MissingBracket(text))
    else
      var rest := text[1..];
      var end := FindFirst(rest, Is(')'));
      if end == |rest| then Err(MissingBracket(text))
      else if end == 0 then Err(EmptyArgument(text))
      else
        assert text == "(" + rest[..end] + ")" + rest[end + 1..];
        Ok(rest[..end])
  }

  // ---- One placeholder ----

  datatype Token = Escape | Found(template: Template, length: nat) | Bad(error: FormatError)

  function UpToPercent(text: string): string {
    text[..FindFirst(text, Is('%'))]
  }

  function CloseWith(rest: string, op: Compiled<Operator>, category: Category, name: string, length: nat): Token {
    match op
    case Err(e) => Bad(e)
    case Ok(operator) =>
      if rest != "" && rest[0] == '%' then Found(Placeholder(operator, category), length)
      else Bad(MissingDelimiter(name))
  }

  function ParseArg(cfg: Config, entry: Entry, arg: string): Compiled<Operator> {
    if entry.TakesResponse? then ParseResponse(cfg, arg) else ParseRequest(cfg, arg)
  }

  /** What follows a known operator name. */
  function AfterName(cfg: Config, entry: Entry, name: string, after: string): (token: Token)
    ensures token.Found? ==> |name| + 2 <= token.length <= |name| + 1 + |after|
  {
    if entry.Plain? then CloseWith(after, Ok(entry.op), entry.category, name, |name| + 2)
    else
      match ExtractOperatorArg(after)
      case Err(e) => Bad(e)
      case Ok(arg) => CloseWith(after[|arg| + 2..], ParseArg(cfg, entry, arg), entry.category, name, |name| + |arg| + 4)
  }

  /** What starts with no operator name can only be a custom one. */
  function CustomToken(custom: set<string>, remainder: string): (token: Token)
    ensures token.Found? ==> 2 <= token.length <= |remainder| + 1
  {
    var name := UpToPercent(remainder);
    if |name| < |remainder| && name in custom then Found(Custom(name), |name| + 2) else Bad(InvalidOperator(name))
  }

  /** What the compiler reads at a percent sign. */
  function TokenAt(cfg: Config, text: string): (token: Token)
    requires text != "" && text[0] == '%'
    ensures token.Escape? ==> "%%" <= text
    ensures token.Found? ==> 2 <= token.length <= |text|
  {
    var remainder := text[1..];
    if remainder != "" && remainder[0] == '%' then Escape
    else
      match LongestPrefix(cfg.operators.Keys, remainder, |remainder|)
      case None => CustomToken(cfg.custom, remainder)
      case Some(name) =>
        if FindFirst(remainder, Delimiter) != |name| then Bad(InvalidOperator(UpToPercent(remainder)))
        else AfterName(cfg, cfg.operators[name], name, remainder[|name|..])
  }

  // ---- The texts a placeholder can have ----

  /** `raw` is a way to write the placeholder `t`. */
  ghost predicate Writes(cfg: Config, raw: string, t: Template) {
    || WritesPlain(cfg, raw, t)
    || WritesWithArg(cfg, raw, t)
    || WritesCustom(cfg, raw, t)
  }

  ghost predicate WritesPlain(cfg: Config, raw: string, t: Template) {
    exists name :: name in cfg.operators && cfg.operators[name].Plain?
      && raw == "%" + name + "%" && t == Placeholder(cfg.operators[name].op, cfg.operators[name].category)
  }

  ghost predicate ArgMeans(cfg: Config, entry: Entry, arg: string, t: Template) {
    && !entry.Plain? && arg != "" && ')' !in arg
    && t.Placeholder? && t.category == entry.category && ParseArg(cfg, entry, arg) == Ok(t.op)
  }

  ghost predicate WritesWithArg(cfg: Config, raw: string, t: Template) {
    exists name, arg :: name in cfg.operators && ArgMeans(cfg, cfg.operators[name], arg, t)
      && raw == WithArg(name, arg)
  }

  ghost predicate WritesCustom(cfg: Config, raw: string, t: Template) {
    && t.Custom? && t.name in cfg.custom && t.name != "" && '%' !in t.name
    && (forall k :: k in cfg.operators ==> !(k <= t.name))
    && raw == "%" + t.name + "%"
  }

  // ---- Scanning ----

  /** A piece of the input: a literal unit, which is one character or a doubled percent sign, or a placeholder. */
  datatype Item = Unit(raw: string) | Slot(raw: string, template: Template)

  /** What it takes to cut a text into pieces: a way to read the first one. */
  type Reader = string -> Compiled<Item>

  /** What is read is the start of the text and not empty. */
  ghost predicate Proper(read: Reader) {
    forall text :: text != "" && read(text).Ok? ==> IsStart(read(text).value.raw, text)
  }

  predicate IsStart(raw: string, text: string) {
    1 <= |raw| <= |text| && raw == text[..|raw|]
  }

  function Pieces(read: Reader, text: string): Compiled<seq<Item>>
    requires Proper(read)
    decreases |text|
  {
    if text == "" then Ok([])
    else
      match read(text)
      case Ok(item) =>
        assert IsStart(item.raw, text);
        Then(item, Pieces(read, text[|item.raw|..]))
      case Err(e) => Err(e)
  }

  function Reading(cfg: Config): (read: Reader)
    ensures Proper(read) && forall text :: text != "" ==> read(text) == FirstPiece(cfg, text)
  {
    (text: string) => if text == "" then Ok(Unit("")) else FirstPiece(cfg, text)
  }

  function Scan(cfg: Config, text: string): Compiled<seq<Item>> {
    Pieces(Reading(cfg), text)
  }

  /** The piece a text starts with. */
  function FirstPiece(cfg: Config, text: string): (r: Compiled<Item>)
    requires text != ""
    ensures r.Ok? ==> IsStart(r.value.raw, text)
  {
    if text[0] != '%' then Ok(Unit(text[..1]))
    else
      match TokenAt(cfg, text)
      case Escape => Ok(Unit(text[..2]))
      case Found(t, length) => Ok(Slot(text[..length], t))
      case Bad(e) => Err(e)
  }

  function Then(item: Item, rest: Compiled<seq<Item>>): Compiled<seq<Item>> {
    match rest
    case Ok(items) => Ok([item] + items)
    case Err(e) => Err(e)
  }

  function Text(items: seq<Item>): string {
    if items == [] then "" else items[0].raw + Text(items[1..])
  }

  ghost predicate ItemOk(cfg: Config, item: Item) {
    match item
    case Unit(raw) => raw == "%%" || (|raw| == 1 && raw[0] != '%')
    case Slot(raw, t) => Writes(cfg, raw, t)
  }

  ghost predicate ItemsOk(cfg: Config, items: seq<Item>) {
    forall i :: 0 <= i < |items| ==> ItemOk(cfg, items[i])
  }

  // ---- What is read is what was written ----

  lemma {:induction false} FindFirstAt(text: string, test: char -> bool, index: nat)
    requires index < |text| && test(text[index]) && forall i :: 0 <= i < index ==> !test(text[i])
    ensures FindFirst(text, test) == index
  {
  }

  /** A prefix of a name and what follows it ends inside the name or contains the mark after it. */
  lemma {:induction false} PrefixWithin(k: string, name: string, rest: string)
    requires k <= name + rest && rest != ""
    ensures if |k| <= |name| then k <= name else k[|name|] == rest[0]
  {
    var text := name + rest;
    if |k| <= |name| { assert k == text[..|k|] == name[..|k|]; }
    else { assert k[|name|] == text[|name|]; }
  }

  /** A registered name followed by a delimiter is found as itself, however the text goes on. */
  lemma {:induction false} NameIsLongest(cfg: Config, name: string, rest: string)
    requires ValidConfig(cfg) && name in cfg.operators && rest != "" && Delimiter(rest[0])
    ensures LongestPrefix(cfg.operators.Keys, name + rest, |name + rest|) == Some(name)
    ensures FindFirst(name + rest, Delimiter) == |name|
  {
    var text := name + rest;
    forall k | k in cfg.operators && k <= text ensures |k| <= |name| { PrefixWithin(k, name, rest); }
    assert name <= text;
    var found := LongestPrefix(cfg.operators.Keys, text, |text|);
    assert found.Some? && |found.value| == |name|;
    assert found.value == text[..|name|] == name;
    FindFirstAt(text, Delimiter, |name|);
  }

  /** A name is read as the operator it is, with what follows it. */
  lemma {:induction false} ReadsName(cfg: Config, name: string, after: string)
    requires ValidConfig(cfg) && name in cfg.operators && after != "" && Delimiter(after[0])
    ensures TokenAt(cfg, "%" + name + after) == AfterName(cfg, cfg.operators[name], name, after)
  {
    var text := "%" + name + after;
    assert text[1..] == name + after;
    NameIsLongest(cfg, name, after);
    assert (name + after)[|name|..] == after;
    assert (name + after)[0] == name[0];
  }

  lemma {:induction false} ReadsPlain(cfg: Config, raw: string, t: Template, rest: string)
    requires ValidConfig(cfg) && WritesPlain(cfg, raw, t)
    ensures raw != "" && raw[0] == '%' && TokenAt(cfg, raw + rest) == Found(t, |raw|)
  {
    var name :| name in cfg.operators && cfg.operators[name].Plain?
      && raw == "%" + name + "%" && t == Placeholder(cfg.operators[name].op, cfg.operators[name].category);
    PlainFollowed(name, rest);
    ReadsName(cfg, name, "%" + rest);
  }

  lemma {:induction false} PlainFollowed(name: string, rest: string)
    ensures "%" + name + "%" + rest == "%" + name + ("%" + rest)
  {
  }

  lemma {:induction false} ExtractsArg(arg: string, rest: string)
    requires arg != "" && ')' !in arg
    ensures ExtractOperatorArg("(" + arg + ")" + rest) == Ok(arg)
  {
    var text := "(" + arg + ")" + rest;
    assert text[1..] == arg + (")" + rest);
    FindFirstAt(arg + (")" + rest), Is(')'), |arg|);
    assert (arg + (")" + rest))[..|arg|] == arg;
  }

  function WithArg(name: string, arg: string): string {
    "%" + name + "(" + arg + ")%"
  }

  function Bracketed(arg: string, rest: string): (r: string)
    ensures |r| >= 1 && r[0] == '('
  {
    "(" + arg + ")" + ("%" + rest)
  }

  lemma {:induction false} WithArgFollowed(name: string, arg: string, rest: string)
    ensures WithArg(name, arg) + rest == "%" + name + Bracketed(arg, rest)
  {
  }

  lemma {:induction false} AfterNameWithArg(cfg: Config, entry: Entry, name: string, arg: string, t: Template,
                                            rest: string)
    requires ArgMeans(cfg, entry, arg, t)
    ensures AfterName(cfg, entry, name, Bracketed(arg, rest)) == Found(t, |name| + |arg| + 4)
  {
    var after := "(" + arg + ")" + ("%" + rest);
    ExtractsArg(arg, "%" + rest);
    assert after[|arg| + 2..] == "%" + rest;
  }

  lemma {:induction false} ReadsWithArg(cfg: Config, raw: string, t: Template, rest: string)
    requires ValidConfig(cfg) && WritesWithArg(cfg, raw, t)
    ensures raw != "" && raw[0] == '%' && TokenAt(cfg, raw + rest) == Found(t, |raw|)
  {
    var name, arg :| name in cfg.operators && ArgMeans(cfg, cfg.operators[name], arg, t) && raw == WithArg(name, arg);
    ReadsArg(cfg, name, arg, t, rest);
  }

  lemma {:induction false} ReadsArg(cfg: Config, name: string, arg: string, t: Template, rest: string)
    requires ValidConfig(cfg) && name in cfg.operators && ArgMeans(cfg, cfg.operators[name], arg, t)
    ensures TokenAt(cfg, WithArg(name, arg) + rest) == Found(t, |WithArg(name, arg)|)
  {
    var after := Bracketed(arg, rest);
    calc {
      TokenAt(cfg, WithArg(name, arg) + rest);
      { WithArgFollowed(name, arg, rest); }
      TokenAt(cfg, "%" + name + after);
      { ReadsName(cfg, name, after); }
      AfterName(cfg, cfg.operators[name], name, after);
      { AfterNameWithArg(cfg, cfg.operators[name], name, arg, t, rest); }
      Found(t, |WithArg(name, arg)|);
    }
  }

  lemma {:induction false} ReadsCustom(cfg: Config, raw: string, t: Template, rest: string)
    requires ValidConfig(cfg) && WritesCustom(cfg, raw, t)
    ensures raw != "" && raw[0] == '%' && TokenAt(cfg, raw + rest) == Found(t, |raw|)
  {
    var name := t.name;
    var remainder := name + ("%" + rest);
    assert (raw + rest)[1..] == remainder && remainder[0] == name[0];
    forall k | k in cfg.operators && k <= remainder ensures |k| > |name| && Delimiter(k[|name|]) {
      PrefixWithin(k, name, "%" + rest);
    }
    FindFirstAt(remainder, Is('%'), |name|);
    assert remainder[..|name|] == name;
  }

  /** Completeness at one placeholder: every way of writing it is read back, whatever follows. */
  lemma {:induction false} Reads(cfg: Config, raw: string, t: Template, rest: string)
    requires ValidConfig(cfg) && Writes(cfg, raw, t)
    ensures raw != "" && raw[0] == '%' && TokenAt(cfg, raw + rest) == Found(t, |raw|)
  {
    if WritesPlain(cfg, raw, t) { ReadsPlain(cfg, raw, t, rest); }
    else if WritesWithArg(cfg, raw, t) { ReadsWithArg(cfg, raw, t, rest); }
    else { ReadsCustom(cfg, raw, t, rest); }
  }

  /** Soundness at one placeholder: what was read is a way of writing it. */
  lemma {:induction false} ReadWasWritten(cfg: Config, text: string)
    requires ValidConfig(cfg) && text != "" && text[0] == '%' && TokenAt(cfg, text).Found?
    ensures Writes(cfg, text[..TokenAt(cfg, text).length], TokenAt(cfg, text).template)
  {
    var remainder := text[1..];
    assert text == "%" + remainder;
    var longest := LongestPrefix(cfg.operators.Keys, remainder, |remainder|);
    if longest.Some? {
      assert remainder == longest.value + remainder[|longest.value|..];
      NameWasWritten(cfg, longest.value, remainder[|longest.value|..], text);
    } else {
      CustomWasWritten(cfg, remainder);
    }
  }

  lemma {:induction false} NameWasWritten(cfg: Config, name: string, after: string, text: string)
    requires name in cfg.operators && text == "%" + (name + after)
      && AfterName(cfg, cfg.operators[name], name, after).Found?
    ensures
      var token := AfterName(cfg, cfg.operators[name], name, after);
      Writes(cfg, text[..token.length], token.template)
  {
    var token := AfterName(cfg, cfg.operators[name], name, after);
    var raw := text[..token.length];
    if cfg.operators[name].Plain? {
      assert raw == "%" + name + "%";
      assert WritesPlain(cfg, raw, token.template);
    } else {
      ArgWasWritten(cfg, cfg.operators[name], name, after);
      var arg := ExtractOperatorArg(after).value;
      ArgTextWasWritten(name, arg, after);
      assert WritesWithArg(cfg, raw, token.template);
    }
  }

  lemma {:induction false} BracketsClose(arg: string, after: string)
    requires ("(" + arg + ")") <= after && |after| > |arg| + 2 && after[|arg| + 2] == '%'
    ensures after == Bracketed(arg, after[|arg| + 3..])
  {
  }

  lemma {:induction false} ArgWasWritten(cfg: Config, entry: Entry, name: string, after: string)
    requires !entry.Plain? && AfterName(cfg, entry, name, after).Found?
    ensures
      var token := AfterName(cfg, entry, name, after);
      var arg := ExtractOperatorArg(after).value;
      && ArgMeans(cfg, entry, arg, token.template) && token.length == |name| + |arg| + 4
      && |after| > |arg| + 2 && after[|arg| + 2] == '%'
  {
  }

  lemma {:induction false} ArgTextWasWritten(name: string, arg: string, after: string)
    requires ("(" + arg + ")") <= after && |after| > |arg| + 2 && after[|arg| + 2] == '%'
    ensures ("%" + (name + after))[..|name| + |arg| + 4] == WithArg(name, arg)
  {
    BracketsClose(arg, after);
    var rest := after[|arg| + 3..];
    WithArgFollowed(name, arg, rest);
    assert "%" + name + after == "%" + (name + after);
    assert (WithArg(name, arg) + rest)[..|WithArg(name, arg)|] == WithArg(name, arg);
  }

  lemma {:induction false} CustomWasWritten(cfg: Config, remainder: string)
    requires CustomToken(cfg.custom, remainder).Found? && remainder[0] != '%'
    requires forall k :: k in cfg.operators ==> !(k <= remainder)
    ensures
      var token := CustomToken(cfg.custom, remainder);
      WritesCustom(cfg, ("%" + remainder)[..token.length], token.template)
  {
    var name := UpToPercent(remainder);
    assert ("%" + remainder)[..|name| + 2] == "%" + name + "%";
    forall k | k in cfg.operators ensures !(k <= name) {
      assert k <= name ==> k <= remainder;
    }
  }

  lemma {:induction false} PieceWasWritten(cfg: Config, text: string)
    requires ValidConfig(cfg) && text != "" && FirstPiece(cfg, text).Ok?
    ensures ItemOk(cfg, FirstPiece(cfg, text).value)
  {
    if text[0] == '%' && TokenAt(cfg, text).Found? { ReadWasWritten(cfg, text); }
  }

  lemma {:induction false} PieceIsRead(cfg: Config, item: Item, rest: string)
    requires ValidConfig(cfg) && ItemOk(cfg, item)
    ensures item.raw != "" && FirstPiece(cfg, item.raw + rest) == Ok(item)
  {
    var text := item.raw + rest;
    if item.Slot? {
      Reads(cfg, item.raw, item.template, rest);
    }
    assert item.raw != "";
    assert text[..|item.raw|] == item.raw;
  }

  lemma {:induction false} ScanSound(cfg: Config, text: string)
    requires ValidConfig(cfg) && Scan(cfg, text).Ok?
    ensures Text(Scan(cfg, text).value) == text && ItemsOk(cfg, Scan(cfg, text).value)
    decreases |text|
  {
    if text == "" {
    } else {
      var item := Reading(cfg)(text).value;
      PieceWasWritten(cfg, text);
      var after := text[|item.raw|..];
      ScanSound(cfg, after);
      var rest := Scan(cfg, after).value;
      assert text == item.raw + after;
      TextStep(cfg, item, rest);
    }
  }

  lemma {:induction false} TextStep(cfg: Config, item: Item, rest: seq<Item>)
    ensures Text([item] + rest) == item.raw + Text(rest)
    ensures ItemsOk(cfg, [item] + rest) <==> ItemOk(cfg, item) && ItemsOk(cfg, rest)
  {
    var items := [item] + rest;
    assert items[1..] == rest && items[0] == item;
    assert forall i :: 0 <= i < |rest| ==> rest[i] == items[i + 1];
  }

  lemma {:induction false} ScanComplete(cfg: Config, items: seq<Item>)
    requires ValidConfig(cfg) && ItemsOk(cfg, items)
    ensures Scan(cfg, Text(items)) == Ok(items)
    decreases |items|
  {
    if items == [] {
    } else {
      var item, rest := items[0], items[1..];
      assert items == [item] + rest;
      TextStep(cfg, item, rest);
      ScanComplete(cfg, rest);
      PieceIsRead(cfg, item, Text(rest));
      assert Reading(cfg)(item.raw + Text(rest)) == Ok(item);
      assert (item.raw + Text(rest))[|item.raw|..] == Text(rest);
    }
  }

  /** The compiler's reading is exact: it reads a text as some pieces just when the text is those
      pieces written one after the other. So every accepted text is tiled without gap or overlap,
      no text has two readings, and a refused text has none. */
  lemma {:induction false} LexExact(cfg: Config, text: string, items: seq<Item>)
    requires ValidConfig(cfg)
    ensures Scan(cfg, text) == Ok(items) <==> Text(items) == text && ItemsOk(cfg, items)
  {
    if Scan(cfg, text) == Ok(items) { ScanSound(cfg, text); }
    if Text(items) == text && ItemsOk(cfg, items) { ScanComplete(cfg, items); }
  }
}
