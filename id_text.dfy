/** Text in which the attribute opening `id="` never occurs. The dialog-id pattern
    can only match where that four-character window appears, so this is the fact the
    scanner lemmas need about every piece of markup the generator writes. */
module IdText {
  import opened JsText

  /** `id="` occurs at offset `p` of `t`. */
  predicate IdOpenAt(t: string, p: int)
  {
    0 <= p && p + 4 <= |t| && t[p] == 'i' && t[p + 1] == 'd' && t[p + 2] == '=' && t[p + 3] == '"'
  }

  /** `t` ends in `id=`, the three characters that a following quote would complete. */
  predicate EndsInIdEq(t: string)
  {
    |t| >= 3 && t[|t| - 3] == 'i' && t[|t| - 2] == 'd' && t[|t| - 1] == '='
  }

  lemma EndsInIdEqIsEndsWith(t: string)
    ensures EndsInIdEq(t) <==> EndsWith(t, "id=")
  {
    if EndsWith(t, "id=") {
      assert t[|t| - 3..][0] == 'i' && t[|t| - 3..][1] == 'd' && t[|t| - 3..][2] == '=';
    }
    if EndsInIdEq(t) {
      assert t[|t| - 3..] == "id=";
    }
  }

  /** `id="` does not occur in `t`; written from the back so it grows with `t`. */
  predicate IdFree(t: string)
    decreases |t|
  {
    |t| < 4 || (!IdOpenAt(t, |t| - 4) && IdFree(t[..|t| - 1]))
  }

  lemma {:induction false} IdFreeAt(t: string, p: int)
    requires IdFree(t) && 0 <= p
    ensures !IdOpenAt(t, p)
    decreases |t|
  {
    if p + 4 < |t| {
      var u := t[..|t| - 1];
      IdFreeAt(u, p);
    }
  }

  /** Appending quote-free text keeps the property. */
  lemma {:induction false} IdFreeText(a: string, b: string)
    requires IdFree(a) && '"' !in b
    ensures IdFree(a + b)
    decreases |b|
  {
    if |b| > 0 {
      var b' := b[..|b| - 1];
      assert '"' !in b' by {
        forall i | 0 <= i < |b'| ensures b'[i] != '"' { assert b'[i] == b[i]; }
      }
      IdFreeText(a, b');
      var t := a + b;
      assert t[..|t| - 1] == a + b';
      assert t[|t| - 1] == b[|b| - 1] != '"';
      assert !IdOpenAt(t, |t| - 4);
    } else {
      assert a + b == a;
    }
  }

  /** Appending a quote keeps the property unless the text ends in `id=`. */
  lemma IdFreeQuote(a: string)
    requires IdFree(a) && !EndsInIdEq(a)
    ensures IdFree(a + "\"")
  {
    var t := a + "\"";
    assert t[..|t| - 1] == a;
  }

  /** An attribute `name="value"`. */
  function Attr(name: string, value: string): string
  {
    name + "=\"" + value + "\""
  }

  lemma NameThenEq(a: string, name: string)
    requires |name| >= 2 && !(name[|name| - 2] == 'i' && name[|name| - 1] == 'd')
    ensures !EndsInIdEq(a + name + "=")
  {
    var t := a + name + "=";
    assert t[|t| - 3] == name[|name| - 2] && t[|t| - 2] == name[|name| - 1];
  }

  lemma QuoteThenValue(a: string, value: string)
    requires !EndsInIdEq(value)
    ensures !EndsInIdEq(a + "\"" + value)
  {
    var t := a + "\"" + value;
    if |value| >= 3 {
      assert t[|t| - 3] == value[|value| - 3] && t[|t| - 2] == value[|value| - 2]
        && t[|t| - 1] == value[|value| - 1];
    } else {
      assert t[|t| - 1 - |value|] == '"';
    }
  }

  /** An attribute whose name does not end in `id` and whose value has no quote and
      does not end in `id=` keeps the property. */
  lemma IdFreeAttr(a: string, name: string, value: string)
    requires IdFree(a) && '"' !in name && |name| >= 2 && !(name[|name| - 2] == 'i' && name[|name| - 1] == 'd')
    requires '"' !in value && !EndsInIdEq(value)
    ensures IdFree(a + Attr(name, value))
  {
    var a1 := a + name + "=";
    IdFreeText(a, name + "=");
    AttrSplit(a, name, value);
    NameThenEq(a, name);
    IdFreeQuote(a1);
    IdFreeText(a1 + "\"", value);
    QuoteThenValue(a1, value);
    IdFreeQuote(a1 + "\"" + value);
  }

  lemma AttrSplit(a: string, name: string, value: string)
    ensures a + (name + "=") == a + name + "="
    ensures a + Attr(name, value) == a + name + "=" + "\"" + value + "\""
  {
  }

  lemma IdFreeShort(t: string)
    requires |t| < 4
    ensures IdFree(t)
  {
  }

  /** Two id-free texts stay id-free when joined, provided the second has no quote
      within its first three characters. */
  lemma {:induction false} IdFreeJoin(a: string, b: string)
    requires IdFree(a) && IdFree(b)
    requires forall i :: 0 <= i < |b| && i < 3 ==> b[i] != '"'
    ensures IdFree(a + b)
    decreases |b|
  {
    if |b| > 0 {
      var b' := b[..|b| - 1];
      var t := a + b;
      assert IdFree(b') by {
        if |b| < 4 { IdFreeShort(b'); }
      }
      IdFreeJoin(a, b');
      assert t[..|t| - 1] == a + b';
      if |t| >= 4 {
        if |b| >= 4 {
          assert t[|t| - 4] == b[|b| - 4] && t[|t| - 3] == b[|b| - 3]
            && t[|t| - 2] == b[|b| - 2] && t[|t| - 1] == b[|b| - 1];
        } else {
          assert t[|t| - 1] == b[|b| - 1] != '"';
        }
        assert !IdOpenAt(t, |t| - 4);
      }
    } else {
      assert a + b == a;
    }
  }
}
