/** Markup written as a list of pieces. The templates of every version are built
    this way, so that one lemma shows that what they write contains no `id="`
    outside the dialog opening. Fixed text and fixed attributes carry their
    safety in their types; text and attribute values that come from the input
    (paths, positions) are checked by `Safe`. */
module Markup {
  import opened IdText

  /** Fixed template text: no quote. */
  type Plain = s: string | '"' !in s

  /** An attribute name that a following `="` cannot turn into `id="`. */
  predicate IsName(s: string)
  {
    '"' !in s && |s| >= 2 && !(s[|s| - 2] == 'i' && s[|s| - 1] == 'd')
  }

  type Name = s: string | IsName(s) witness "ab"

  /** A fixed attribute value. */
  type Fixed = s: string | '"' !in s && !EndsInIdEq(s)

  /** The line breaks and indentation the templates put between elements. */
  const Nl4: Plain := "\n    "
  const Nl6: Plain := "\n      "
  const Nl8: Plain := "\n        "

  datatype Piece =
    | Text(text: Plain)                       // fixed text
    | Raw(raw: string)                        // text taken from the input
    | Attribute(name: Name, fixed: Fixed)     // `name="fixed"`
    | Field(field: string, value: string)     // `field="value"` with a value from the input

  function PieceText(p: Piece): string
  {
    match p
    case Text(t) => t
    case Raw(t) => t
    case Attribute(n, v) => Attr(n, v)
    case Field(n, v) => Attr(n, v)
  }

  /** The text of the pieces, one after another. */
  function Render(ps: seq<Piece>): string
  {
    if |ps| == 0 then "" else PieceText(ps[0]) + Render(ps[1..])
  }

  lemma RenderCons(p: Piece, ps: seq<Piece>)
    ensures Render([p] + ps) == PieceText(p) + Render(ps)
  {
    assert ([p] + ps)[0] == p && ([p] + ps)[1..] == ps;
  }

  lemma {:induction false} RenderAppend(a: seq<Piece>, b: seq<Piece>)
    ensures Render(a + b) == Render(a) + Render(b)
    decreases |a|
  {
    if |a| == 0 {
      assert a + b == b;
    } else {
      assert (a + b)[1..] == a[1..] + b;
      RenderAppend(a[1..], b);
    }
  }

  /** Input-dependent text and values that cannot complete `id="`. */
  predicate Safe(p: Piece)
  {
    match p
    case Text(_) => true
    case Raw(t) => '"' !in t
    case Attribute(_, _) => true
    case Field(n, v) => IsName(n) && '"' !in v && !EndsInIdEq(v)
  }

  predicate AllSafe(ps: seq<Piece>)
  {
    forall i :: 0 <= i < |ps| ==> Safe(ps[i])
  }

  lemma {:induction false} RenderIdFree(ps: seq<Piece>)
    requires AllSafe(ps)
    ensures IdFree(Render(ps))
    decreases |ps|
  {
    if |ps| > 0 {
      var init := ps[..|ps| - 1];
      assert AllSafe(init) by {
        forall i | 0 <= i < |init| ensures Safe(init[i]) { assert init[i] == ps[i]; }
      }
      RenderIdFree(init);
      var last := ps[|ps| - 1];
      assert Safe(last);
      assert ps == init + [last];
      RenderAppend(init, [last]);
      assert Render([last]) == PieceText(last);
      match last
      case Text(t) => IdFreeText(Render(init), t);
      case Raw(t) => IdFreeText(Render(init), t);
      case Attribute(n, v) => IdFreeAttr(Render(init), n, v);
      case Field(n, v) => IdFreeAttr(Render(init), n, v);
    }
  }

  lemma AllSafeAppend(a: seq<Piece>, b: seq<Piece>)
    requires AllSafe(a) && AllSafe(b)
    ensures AllSafe(a + b)
  {
    forall i | 0 <= i < |a + b| ensures Safe((a + b)[i]) {
      if i < |a| { assert (a + b)[i] == a[i]; } else { assert (a + b)[i] == b[i - |a|]; }
    }
  }

  /** The pieces hold exactly one input attribute called `name`, and its value is `value`. */
  predicate OnlyField(ps: seq<Piece>, name: string, value: string)
  {
    (exists i :: 0 <= i < |ps| && ps[i].Field? && ps[i].field == name && ps[i].value == value)
    && forall i :: 0 <= i < |ps| && ps[i].Field? && ps[i].field == name ==> ps[i].value == value
  }

  /** No piece is an input attribute called `name`. */
  predicate NoField(ps: seq<Piece>, name: string)
  {
    forall i :: 0 <= i < |ps| ==> !(ps[i].Field? && ps[i].field == name)
  }

  lemma OnlyFieldAppend(a: seq<Piece>, b: seq<Piece>, name: string, value: string)
    requires OnlyField(a, name, value) && NoField(b, name)
    ensures OnlyField(a + b, name, value) && OnlyField(b + a, name, value)
  {
    var i :| 0 <= i < |a| && a[i].Field? && a[i].field == name && a[i].value == value;
    assert (a + b)[i] == a[i];
    assert (b + a)[|b| + i] == a[i];
    forall j | 0 <= j < |a + b| && (a + b)[j].Field? && (a + b)[j].field == name
      ensures (a + b)[j].value == value
    {
      if j < |a| { assert (a + b)[j] == a[j]; }
    }
    forall j | 0 <= j < |b + a| && (b + a)[j].Field? && (b + a)[j].field == name
      ensures (b + a)[j].value == value
    {
      if j >= |b| { assert (b + a)[j] == a[j - |b|]; }
    }
  }

  lemma NoFieldAppend(a: seq<Piece>, b: seq<Piece>, name: string)
    requires NoField(a, name) && NoField(b, name)
    ensures NoField(a + b, name)
  {
    forall j | 0 <= j < |a + b| ensures !((a + b)[j].Field? && (a + b)[j].field == name) {
      if j < |a| { assert (a + b)[j] == a[j]; } else { assert (a + b)[j] == b[j - |a|]; }
    }
  }

  /** A text whose first ten characters hold no quote: what may follow a piece of
      markup without completing a dialog-id match that starts inside it. */
  predicate QuoteFreeStart(t: string)
  {
    forall i :: 0 <= i < |t| && i < 10 ==> t[i] != '"'
  }

  lemma QuoteFreeStartAppend(a: string, b: string)
    requires '"' !in a && (|a| >= 10 || QuoteFreeStart(b))
    ensures QuoteFreeStart(a + b)
  {
    forall i | 0 <= i < |a + b| && i < 10 ensures (a + b)[i] != '"' {
      if i < |a| { assert (a + b)[i] == a[i]; } else { assert (a + b)[i] == b[i - |a|]; }
    }
  }
}
