/** `escapeHtml`: the XSS guard applied to every stored text before it is
    spliced into the page's markup. */
module Html {

  /** A JavaScript value as `escapeHtml` sees it: either a string or some
      other value (`undefined`, a number, ...), which it hands back as is. */
  datatype JsValue<T> = JsString(text: string) | NonString(value: T)

  /** The five characters the regular expression `/[&<>"']/g` matches. */
  predicate IsSpecial(c: char) {
    c == '&' || c == '<' || c == '>' || c == '"' || c == '\''
  }

  /** The characters that can open or close markup: every special character
      except the ampersand, which the output still uses to start entities. */
  predicate IsMarkup(c: char) {
    c == '<' || c == '>' || c == '"' || c == '\''
  }

  predicate HasSpecial(s: string) {
    exists i :: 0 <= i < |s| && IsSpecial(s[i])
  }

  /** No character of `s` can open or close markup. */
  predicate MarkupFree(s: string) {
    forall i :: 0 <= i < |s| ==> !IsMarkup(s[i])
  }

  /** Every ampersand of `s` opens one of the five entities: `s` holds no bare
      ampersand. */
  predicate AmpersandsOpenEntities(s: string) {
    forall i :: 0 <= i < |s| && s[i] == '&' ==> StartsWithEntity(s[i..])
  }

  /** True when `s` begins with one of the five entities. */
  predicate StartsWithEntity(s: string) {
    "&amp;" <= s || "&lt;" <= s || "&gt;" <= s || "&quot;" <= s || "&#039;" <= s
  }

  /** The replacement table: each special character becomes its entity,
      every other character stands for itself, and an HTML reader reads
      each entry back as the character it replaces. */
  function EscapeChar(c: char): (e: string)
    ensures !IsSpecial(c) ==> e == [c]
    ensures Unescape(e) == [c]
    ensures |e| == 1 <==> !IsSpecial(c)
    ensures |e| >= 1 && (e[0] == '&' <==> IsSpecial(c))
    ensures MarkupFree(e)
    ensures StartsWithEntity(e) <==> IsSpecial(c)
    ensures forall i :: 0 < i < |e| ==> e[i] != '&'
  {
    UnescapeEntities();
    match c
    case '&' => "&amp;"
    case '<' => "&lt;"
    case '>' => "&gt;"
    case '"' => "&quot;"
    case '\'' => "&#039;"
    case _ => [c]
  }

  /** `text.replace(/[&<>"']/g, m => map[m])` on a string: one left-to-right
      pass in which each character is replaced by its table entry. The
      output can no longer open or close markup, and it is the input itself
      exactly when the input holds no special character. */
  function Escape(s: string): (r: string)
    ensures MarkupFree(r)
    ensures AmpersandsOpenEntities(r)
    ensures |r| >= |s|
    ensures r == s <==> !HasSpecial(s)
  {
    if s == [] then []
    else
      var r := EscapeChar(s[0]) + Escape(s[1..]);
      assert !HasSpecial(s) ==> !IsSpecial(s[0]) && !HasSpecial(s[1..]) by {
        if !HasSpecial(s) {
          forall i | 0 <= i < |s[1..]| ensures !IsSpecial(s[1..][i]) {
            assert s[1..][i] == s[i + 1];
          }
        }
      }
      assert HasSpecial(s[1..]) ==> HasSpecial(s) by {
        if HasSpecial(s[1..]) {
          var i :| 0 <= i < |s[1..]| && IsSpecial(s[1..][i]);
          assert s[i + 1] == s[1..][i];
        }
      }
      assert IsSpecial(s[0]) ==> HasSpecial(s);
      EntityPrefix(EscapeChar(s[0]), Escape(s[1..]));
      r
  }

  /** Concatenating an escaped character in front of text without bare
      ampersands gives text without bare ampersands. */
  lemma EntityPrefix(e: string, t: string)
    requires |e| >= 1 && (e[0] == '&' ==> StartsWithEntity(e))
    requires forall i :: 0 < i < |e| ==> e[i] != '&'
    requires AmpersandsOpenEntities(t)
    ensures AmpersandsOpenEntities(e + t)
  {
  }

  /** `escapeHtml(text)`: a string is escaped, anything else is returned
      unchanged. The escaped string is free of markup characters, holds no
      bare ampersand, and unescaping it gives the original text back;
      `EscapeUnescape` shows `Escape` is the only function doing all three. */
  function EscapeHtml<T>(v: JsValue<T>): (r: JsValue<T>)
    ensures v.NonString? ==> r == v
    ensures v.JsString? ==> r == JsString(Escape(v.text))
    ensures v.JsString? ==> MarkupFree(r.text) && AmpersandsOpenEntities(r.text)
    ensures v.JsString? ==> Unescape(r.text) == v.text
  {
    match v
    case NonString(_) => v
    case JsString(t) =>
      UnescapeEscape(t);
      JsString(Escape(t))
  }

  /** The inverse of `Escape`, as an HTML parser reads text content: each of
      the five entities is read back as its character, anything else as
      itself. */
  function Unescape(s: string): string
    decreases |s|
  {
    if s == [] then []
    else if "&amp;" <= s then "&" + Unescape(s[5..])
    else if "&lt;" <= s then "<" + Unescape(s[4..])
    else if "&gt;" <= s then ">" + Unescape(s[4..])
    else if "&quot;" <= s then "\"" + Unescape(s[6..])
    else if "&#039;" <= s then "'" + Unescape(s[6..])
    else [s[0]] + Unescape(s[1..])
  }

  /** An HTML reader reads each of the five entities back as one character. */
  lemma UnescapeEntities()
    ensures Unescape("&amp;") == "&" && Unescape("&lt;") == "<" && Unescape("&gt;") == ">"
    ensures Unescape("&quot;") == "\"" && Unescape("&#039;") == "'"
  {
    assert !("&amp;" <= "&gt;") && !("&lt;" <= "&gt;") by {
      assert "&amp;"[1] != "&gt;"[1] && "&lt;"[1] != "&gt;"[1];
    }
  }

  /** Unescaping reads one escaped character back, whatever follows it. */
  lemma UnescapeEscapeChar(c: char, t: string)
    ensures Unescape(EscapeChar(c) + t) == [c] + Unescape(t)
  {
    var s := EscapeChar(c) + t;
    assert s[0] == EscapeChar(c)[0];
    if !IsSpecial(c) {
      assert s[0] == c && c != '&';
      assert s[1..] == t;
    } else {
      assert s[1] == EscapeChar(c)[1];
      assert s[..|EscapeChar(c)|] == EscapeChar(c);
      assert s[|EscapeChar(c)|..] == t;
    }
  }

  /** Escaping is a homomorphism on strings: it commutes with concatenation,
      so each character is replaced on its own and replacements are never
      rescanned. */
  lemma {:induction false} EscapeConcat(a: string, b: string)
    ensures Escape(a + b) == Escape(a) + Escape(b)
  {
    if a == [] {
      assert a + b == b;
    } else {
      assert (a + b)[0] == a[0];
      assert (a + b)[1..] == a[1..] + b;
      EscapeConcat(a[1..], b);
    }
  }

  /** Unescaping undoes escaping. */
  lemma {:induction false} UnescapeEscape(s: string)
    ensures Unescape(Escape(s)) == s
  {
    if s != [] {
      UnescapeEscapeChar(s[0], Escape(s[1..]));
      UnescapeEscape(s[1..]);
    }
  }

  /** Escaping what an HTML reader makes of a text without markup characters
      or bare ampersands gives that text back. With `UnescapeEscape` this
      makes `Escape` the one encoding that is markup-free, has no bare
      ampersand and reads back as its input. */
  lemma {:induction false} EscapeUnescape(r: string)
    requires MarkupFree(r) && AmpersandsOpenEntities(r)
    ensures Escape(Unescape(r)) == r
    decreases |r|
  {
    if r != [] {
      var k, c := ReadOne(r);
      var u := Unescape(r[k..]);
      DropKeeps(r, k);
      EscapeUnescape(r[k..]);
      EscapeConcat([c], u);
      assert Escape([c]) == EscapeChar(c) + Escape([]);
      assert r == r[..k] + r[k..];
    }
  }

  /** An HTML reader takes the first `k` characters of a non-empty text
      without markup characters or bare ampersands as the one character `c`,
      and these `k` characters are exactly the table entry for `c`. */
  lemma ReadOne(r: string) returns (k: nat, c: char)
    requires r != [] && MarkupFree(r) && AmpersandsOpenEntities(r)
    ensures 1 <= k <= |r| && r[..k] == EscapeChar(c)
    ensures Unescape(r) == [c] + Unescape(r[k..])
  {
    if "&amp;" <= r {
      k, c := 5, '&';
    } else if "&lt;" <= r {
      k, c := 4, '<';
    } else if "&gt;" <= r {
      k, c := 4, '>';
    } else if "&quot;" <= r {
      k, c := 6, '"';
    } else if "&#039;" <= r {
      k, c := 6, '\'';
    } else {
      k, c := 1, r[0];
      assert r[0..] == r;
      assert r[0] != '&' && !IsMarkup(r[0]);
    }
  }

  /** Dropping a prefix keeps a text free of markup and of bare ampersands. */
  lemma DropKeeps(r: string, k: nat)
    requires k <= |r| && MarkupFree(r) && AmpersandsOpenEntities(r)
    ensures MarkupFree(r[k..]) && AmpersandsOpenEntities(r[k..])
  {
    forall i | 0 <= i < |r[k..]| && r[k..][i] == '&'
      ensures StartsWithEntity(r[k..][i..])
    {
      assert r[k..][i] == r[k + i];
      assert r[k..][i..] == r[k + i..];
    }
  }

  /** Two different texts never escape to the same markup. */
  lemma EscapeInjective(a: string, b: string)
    requires Escape(a) == Escape(b)
    ensures a == b
  {
    UnescapeEscape(a);
    UnescapeEscape(b);
  }
}
