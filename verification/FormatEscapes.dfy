/** Where `%%` does stand for a percent sign. The compiler halves it in the literal after the last
placeholder only; `EscapesReadExactly` says for which formats that makes no difference. */
module FormatEscapes {
  import opened Common
  import opened Grammar
  import opened FormatParser

  /** `Group` as it would be if every literal were halved. */
  function GroupHalved(pending: string, items: seq<Item>): seq<Template>
    decreases |items|
  {
    var literal := if pending == "" then [] else [Lit(Halve(pending))];
    if items == [] then literal
    else
      match items[0]
      case Unit(raw) => GroupHalved(pending + raw, items[1..])
      case Slot(_, t) => literal + [t] + GroupHalved("", items[1..])
  }

  ghost predicate HasSlot(items: seq<Item>) {
    exists j :: 0 <= j < |items| && items[j].Slot?
  }

  /** No `%%` stands before a placeholder. */
  ghost predicate NoEarlyEscape(items: seq<Item>) {
    forall i, j :: 0 <= i < j < |items| && items[j].Slot? ==> items[i] != Unit("%%")
  }

  lemma {:induction false} HalveKeeps(text: string)
    requires IsUnits(text)
    ensures |Halve(text)| <= |text|
    ensures Halve(text) == text <==> '%' !in text
    decreases |text|
  {
    if text == "" {
    } else if text[0] == '%' {
      HalveKeeps(text[2..]);
      assert text[..2] == "%%" && '%' in text;
      assert |Halve(text)| == 1 + |Halve(text[2..])| < |text|;
    } else {
      HalveKeeps(text[1..]);
      assert text == text[..1] + text[1..];
      if |text| >= 2 { assert text[..2][0] != '%' && Halve(text) == text[..1] + Halve(text[1..]); }
    }
  }

  lemma {:induction false} UnitHasPercent(cfg: Config, raw: string)
    requires ItemOk(cfg, Unit(raw))
    ensures '%' in raw <==> raw == "%%"
  {
    if raw == "%%" { assert raw[0] == '%'; }
  }

  lemma {:induction false} LitTells(a: string, b: string)
    requires a != "" && b != ""
    ensures Lit(a) == Lit(b) <==> a == b
  {
    if Lit(a) == Lit(b) && |a| == 1 { assert a == [a[0]] && b == [b[0]]; }
  }

  /** The two readings of the items after a literal agree just when that literal has nothing to halve
      or no placeholder follows, and no escape stands before a placeholder. */
  lemma {:induction false} SameGroups(cfg: Config, pending: string, items: seq<Item>)
    requires ItemsOk(cfg, items) && IsUnits(pending)
    ensures Group(pending, items) == GroupHalved(pending, items)
       <==> NoEarlyEscape(items) && (HasSlot(items) ==> '%' !in pending)
    decreases |items|
  {
    if items == [] {
    } else {
      var rest := items[1..];
      assert ItemOk(cfg, items[0]);
      match items[0]
      case Unit(raw) =>
        UnitIsUnits(cfg, raw);
        UnitHasPercent(cfg, raw);
        UnitsAppend(pending, raw);
        SameGroups(cfg, pending + raw, rest);
        SplitUnit(items, raw);
        assert '%' in pending + raw <==> '%' in pending || '%' in raw;
      case Slot(raw, t) =>
        SameGroups(cfg, "", rest);
        SplitSlot(items);
        SameSlot(pending, t, Group("", rest), GroupHalved("", rest));
    }
  }

  lemma {:induction false} SplitUnit(items: seq<Item>, raw: string)
    requires items != [] && items[0] == Unit(raw)
    ensures HasSlot(items) <==> HasSlot(items[1..])
    ensures NoEarlyEscape(items) <==> NoEarlyEscape(items[1..]) && (HasSlot(items[1..]) ==> raw != "%%")
  {
    var rest := items[1..];
    assert forall i :: 0 < i < |items| ==> items[i] == rest[i - 1];
    assert forall i :: 0 <= i < |rest| ==> rest[i] == items[i + 1];
  }

  lemma {:induction false} SplitSlot(items: seq<Item>)
    requires items != [] && items[0].Slot?
    ensures HasSlot(items) && (NoEarlyEscape(items) <==> NoEarlyEscape(items[1..]))
  {
    var rest := items[1..];
    assert forall i :: 0 < i < |items| ==> items[i] == rest[i - 1];
    assert forall i :: 0 <= i < |rest| ==> rest[i] == items[i + 1];
  }

  lemma {:induction false} SameSlot(pending: string, t: Template, rest: seq<Template>, halved: seq<Template>)
    requires IsUnits(pending)
    ensures
      var literal := if pending == "" then [] else [Lit(pending)];
      var half := if pending == "" then [] else [Lit(Halve(pending))];
      literal + [t] + rest == half + [t] + halved <==> '%' !in pending && rest == halved
  {
    HalveKeeps(pending);
    if pending == "" {
      assert ([] + [t] + rest)[1..] == rest && ([] + [t] + halved)[1..] == halved;
    } else {
      LitTells(pending, Halve(pending));
      var kept, half := [Lit(pending)] + [t] + rest, [Lit(Halve(pending))] + [t] + halved;
      assert kept[0] == Lit(pending) && kept[2..] == rest;
      assert half[0] == Lit(Halve(pending)) && half[2..] == halved;
    }
  }

  /** A format compiles to what reading every `%%` as a percent sign would give, if and only if no
      `%%` stands before a placeholder. */
  lemma {:induction false} EscapesReadExactly(cfg: Config, input: string, items: seq<Item>)
    requires ValidConfig(cfg) && Text(items) == input && ItemsOk(cfg, items)
    ensures Parsed(cfg, input) == Ok(GroupHalved("", items)) <==> NoEarlyEscape(items)
  {
    LexExact(cfg, input, items);
    ParsedPieces(cfg, input, items);
    SameGroups(cfg, "", items);
  }

  lemma {:induction false} HalveEscape()
    ensures Halve("%%") == "%"
  {
    assert "%%"[2..] == "";
  }

  lemma {:induction false} EscapeGroups(raw: string, t: Template)
    ensures Group("", [Unit("%%"), Slot(raw, t)]) == [Literal("%%"), t]
    ensures GroupHalved("", [Unit("%%"), Slot(raw, t)]) == [Char('%'), t]
  {
    var items, slot := [Unit("%%"), Slot(raw, t)], [Slot(raw, t)];
    assert items[1..] == slot && slot[1..] == [];
    calc {
      Group("", items);
      Group("" + "%%", slot);
      { assert "" + "%%" == "%%"; }
      Group("%%", slot);
      [Literal("%%")] + [t] + Group("", []);
      [Literal("%%"), t];
    }
    calc {
      GroupHalved("", items);
      GroupHalved("" + "%%", slot);
      { assert "" + "%%" == "%%"; }
      GroupHalved("%%", slot);
      { HalveEscape(); }
      [Char('%')] + [t] + GroupHalved("", []);
      [Char('%'), t];
    }
  }

  /** For instance, before any placeholder at all: two percent signs where one was meant. */
  lemma {:induction false} EscapeKept(cfg: Config, raw: string, t: Template)
    requires ValidConfig(cfg) && Writes(cfg, raw, t)
    ensures Parsed(cfg, "%%" + raw) == Ok([Literal("%%"), t])
    ensures GroupHalved("", [Unit("%%"), Slot(raw, t)]) == [Char('%'), t]
  {
    EscapeGroups(raw, t);
    EscapeItems(cfg, raw, t);
    var items := [Unit("%%"), Slot(raw, t)];
    ParseExact(cfg, "%%" + raw, [Literal("%%"), t]);
    assert Text(items) == "%%" + raw && ItemsOk(cfg, items) && Group("", items) == [Literal("%%"), t];
  }

  lemma {:induction false} EscapeItems(cfg: Config, raw: string, t: Template)
    requires Writes(cfg, raw, t)
    ensures
      var items := [Unit("%%"), Slot(raw, t)];
      Text(items) == "%%" + raw && ItemsOk(cfg, items)
  {
    OneSlot(raw, t);
    TextStep(cfg, Unit("%%"), [Slot(raw, t)]);
    assert [Unit("%%")] + [Slot(raw, t)] == [Unit("%%"), Slot(raw, t)];
  }
}
