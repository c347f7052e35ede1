/** The per-cell literal encoder of `generate_insert_scripts`: one table cell
    becomes the SQL text that stands for it in a WHERE condition and in a
    VALUES list. */
module Literal {
  import opened Wrappers
  import opened Text

  /** A cell, tagged by the host type the encoder tests for. The host's
      `str(val)` rendering of numbers and other objects is carried as opaque
      text; `isNaN` and `isNaT` mark the float NaN and the missing-timestamp
      values that count as missing although they belong to a numeric or an
      "other" type. */
  datatype Cell =
    | Missing                                // None, pandas NA
    | Str(s: string)                         // a Python `str`
    | Int(text: string)                      // a Python `int`
    | Float(text: string, isNaN: bool)       // a Python `float`
    | Other(text: string, isNaT: bool)       // dates, numpy integer scalars, ...

  /** `pd.isna(val)`. */
  predicate IsNa(c: Cell)
  {
    || c.Missing?
    || (c.Float? && c.isNaN)
    || (c.Other? && c.isNaT)
  }

  const Null: string := "NULL"

  /** How a SQL engine reads a quoted string literal back into its value;
      `None` when the text is not one complete string literal. */
  function ParseQuoted(lit: string): Option<string>
  {
    if |lit| >= 2 && lit[0] == Quote && lit[|lit| - 1] == Quote then
      CollapseQuotes(lit[1..|lit| - 1])
    else None
  }

  /** The literal for one cell. The missing test comes first and overrides
      the type of the value; strings are quoted with every quote doubled;
      ints and floats appear as their text; anything else is quoted but its
      quotes are NOT doubled. */
  function Encode(c: Cell): (r: string)
    ensures IsNa(c) ==> r == Null
    ensures !IsNa(c) && c.Str? ==> ParseQuoted(r) == Some(c.s)
    ensures !IsNa(c) && (c.Int? || c.Float?) ==> r == c.text
    ensures !IsNa(c) && c.Other? ==>
              |r| == |c.text| + 2 && r[0] == Quote && r[|r| - 1] == Quote
              && r[1..|r| - 1] == c.text
  {
    if IsNa(c) then Null
    else match c
      case Str(s) =>
        var r := [Quote] + DoubleQuotes(s) + [Quote];
        assert r[1..|r| - 1] == DoubleQuotes(s);
        CollapseDoubleQuotes(s);
        r
      case Int(text) => text
      case Float(text, _) => text
      case Other(text, _) => [Quote] + text + [Quote]
  }

  /** The body of a string cell's literal is the doubling of the string and
      nothing else: it has no lone quote, and collapsing it gives the string
      back. */
  lemma StrLiteralBody(s: string)
    ensures var r := Encode(Str(s));
            |r| >= 2 && r[0] == Quote && r[|r| - 1] == Quote
            && QuotesPaired(r[1..|r| - 1])
            && r[1..|r| - 1] == DoubleQuotes(s)
  {
    var r := Encode(Str(s));
    assert ParseQuoted(r) == Some(s);
    CollapseIffDouble(r[1..|r| - 1], s);
  }

  /** A string literal reads back as exactly the string it was made from, so
      different strings never share a literal. */
  lemma StrLiteralInjective(a: string, b: string)
    requires Encode(Str(a)) == Encode(Str(b))
    ensures a == b
  {
    assert ParseQuoted(Encode(Str(a))) == Some(a);
  }

  /** A non-missing "other" value reads back as its text exactly when the
      text holds no quote: without quote doubling, a quote inside the text
      breaks the literal. */
  lemma OtherLiteralRoundTrip(text: string)
    ensures ParseQuoted(Encode(Other(text, false))) == Some(text) <==> Quote !in text
  {
    var r := Encode(Other(text, false));
    assert r[1..|r| - 1] == text;
    CollapseIffDouble(text, text);
    DoubleQuotesFixed(text);
  }

  /** Worked encodings: a quote inside a name is doubled, numbers stay
      bare, a NaN float is `NULL`, and a quote inside an "other" value is
      left single. */
  lemma EncodeExamples()
    ensures Encode(Str("O'Brien")) == "'O''Brien'"
    ensures Encode(Int("42")) == "42"
    ensures Encode(Float("3.5", false)) == "3.5"
    ensures Encode(Float("nan", true)) == "NULL"
    ensures Encode(Other("it's", false)) == "'it's'"
  {
    DoubleQuotesExample();
    StrLiteralBody("O'Brien");
    var r := Encode(Str("O'Brien"));
    assert r == [r[0]] + r[1..|r| - 1] + [r[|r| - 1]];
  }
}
