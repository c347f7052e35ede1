/** String helpers shared by the literal encoder and the statement builder:
    Python's `str.join`, the quote doubling of `str.replace("'", "''")`, and
    its inverse, the reading of a SQL string-literal body. */
module Text {
  import opened Wrappers

  const Quote: char := '\''

  /** `sep.join(parts)`. */
  function Join(sep: string, parts: seq<string>): string
  {
    if |parts| == 0 then ""
    else if |parts| == 1 then parts[0]
    else parts[0] + sep + Join(sep, parts[1..])
  }

  /** `s.replace("'", "''")`: every single quote written twice. */
  function DoubleQuotes(s: string): string
  {
    if s == [] then []
    else (if s[0] == Quote then [Quote, Quote] else [s[0]]) + DoubleQuotes(s[1..])
  }

  /** How SQL reads the text between the outer quotes of a string literal:
      each `''` stands for one quote, and a quote not followed by another
      (a lone quote) would end the literal early, so the body is rejected. */
  function CollapseQuotes(t: string): Option<string>
  {
    if t == [] then Some([])
    else if t[0] != Quote then
      match CollapseQuotes(t[1..])
      case Some(u) => Some([t[0]] + u)
      case None => None
    else if |t| >= 2 && t[1] == Quote then
      match CollapseQuotes(t[2..])
      case Some(u) => Some([Quote] + u)
      case None => None
    else None
  }

  /** A literal body with no lone quote. */
  predicate QuotesPaired(t: string)
  {
    CollapseQuotes(t).Some?
  }

  /** Doubling is undone by collapsing: the doubled text has no lone quote
      and reads back as the original. */
  lemma {:induction false} CollapseDoubleQuotes(s: string)
    ensures CollapseQuotes(DoubleQuotes(s)) == Some(s)
  {
    if s != [] {
      CollapseDoubleQuotes(s[1..]);
      var rest := DoubleQuotes(s[1..]);
      if s[0] == Quote {
        assert DoubleQuotes(s) == [Quote, Quote] + rest;
        assert DoubleQuotes(s)[2..] == rest;
      } else {
        assert DoubleQuotes(s) == [s[0]] + rest;
        assert DoubleQuotes(s)[1..] == rest;
      }
      assert [s[0]] + s[1..] == s;
    }
  }

  /** Conversely, a body that collapses to `s` is exactly the doubling of
      `s`: doubling is the only way to write `s` as a literal body. */
  lemma {:induction false} DoubleQuotesOfCollapse(t: string, s: string)
    requires CollapseQuotes(t) == Some(s)
    ensures DoubleQuotes(s) == t
  {
    if t != [] {
      if t[0] != Quote {
        var u := CollapseQuotes(t[1..]).value;
        DoubleQuotesOfCollapse(t[1..], u);
        assert s == [t[0]] + u;
        assert s[1..] == u;
        assert t == [t[0]] + t[1..];
      } else {
        var u := CollapseQuotes(t[2..]).value;
        DoubleQuotesOfCollapse(t[2..], u);
        assert s == [Quote] + u;
        assert s[1..] == u;
        assert t == [Quote, Quote] + t[2..];
      }
    }
  }

  /** Collapsing and doubling are inverse: `t` reads as `s` exactly when `t`
      is the doubling of `s`. */
  lemma CollapseIffDouble(t: string, s: string)
    ensures CollapseQuotes(t) == Some(s) <==> t == DoubleQuotes(s)
  {
    if CollapseQuotes(t) == Some(s) {
      DoubleQuotesOfCollapse(t, s);
    }
    if t == DoubleQuotes(s) {
      CollapseDoubleQuotes(s);
    }
  }

  /** Doubling changes a text exactly when the text holds a quote. */
  lemma {:induction false} DoubleQuotesFixed(s: string)
    ensures Quote !in s ==> DoubleQuotes(s) == s
    ensures Quote in s ==> |DoubleQuotes(s)| > |s|
    ensures |DoubleQuotes(s)| >= |s|
  {
    if s != [] {
      DoubleQuotesFixed(s[1..]);
      assert [s[0]] + s[1..] == s;
      if Quote in s && s[0] != Quote {
        assert Quote in s[1..];
      }
    }
  }

  /** `"O'Brien".replace("'", "''")` is `"O''Brien"`. */
  lemma DoubleQuotesExample()
    ensures DoubleQuotes("O'Brien") == "O''Brien"
  {
    assert DoubleQuotes("") == "";
    assert DoubleQuotes("n") == "n";
    assert DoubleQuotes("en") == "en";
    assert DoubleQuotes("ien") == "ien";
    assert DoubleQuotes("rien") == "rien";
    assert DoubleQuotes("Brien") == "Brien";
    assert DoubleQuotes("'Brien") == "''Brien";
  }
}
