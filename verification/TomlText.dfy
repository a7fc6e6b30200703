/** The texts that numbers and strings are rendered to. */
module TomlText {
  import opened Toml
  import opened TomlRoundTrip

  // ----- numbers -----

  ghost predicate IsDecimal(s: string, n: int) {
    s != "" && AllDigits(s) && NatOf(s) == n && (s[0] == '0' ==> s == "0")
  }

  lemma DecimalText(n: nat)
    ensures IsDecimal(RenderNat(n), n)
  {
    RenderedNat(n);
    assert |RenderNat(n)| == 1 ==> RenderNat(n) == [RenderNat(n)[0]];
  }

  /** A number is its decimal digits, without a leading zero; a minus sign stands before a negative one. */
  lemma NumberText(n: int)
    ensures n >= 0 ==> IsDecimal(RenderInt(n), n)
    ensures n < 0 ==> RenderInt(n) == "-" + RenderInt(-n) && IsDecimal(RenderInt(-n), -n)
  {
    if n >= 0 {
      DecimalText(n);
    } else {
      DecimalText(-n);
    }
  }

  // ----- strings -----

  /** A character that stands for itself: no quotation mark, no backslash, no control character. */
  predicate Plain(c: char) { c != '\"' && c != '\\' && c as int >= 32 }

  predicate ShortlyEscaped(c: char) { c == '\"' || c == '\\' || c as int in {8, 9, 10, 12, 13} }

  /** Plain characters are copied, those with a short escape take two characters, other control characters
      six. */
  lemma EscapeForms(c: char)
    ensures Plain(c) <==> EscapeChar(c) == [c]
    ensures |EscapeChar(c)| == if Plain(c) then 1 else if ShortlyEscaped(c) then 2 else 6
  {
  }

  lemma {:induction false} EscapeGrows(s: string)
    ensures |Escape(s)| >= |s|
    ensures |Escape(s)| == |s| <==> forall i :: 0 <= i < |s| ==> Plain(s[i])
    ensures (forall i :: 0 <= i < |s| ==> Plain(s[i])) ==> Escape(s) == s
  {
    if s != [] {
      EscapeGrows(s[1..]);
      EscapeForms(s[0]);
      assert forall i :: 1 <= i < |s| ==> s[1..][i - 1] == s[i];
      assert [s[0]] + s[1..] == s;
    }
  }

  /** A string stands between quotation marks as it is exactly when all its characters are plain. */
  lemma QuotedAsIs(s: string)
    ensures Quote(s) == "\"" + s + "\"" <==> forall i :: 0 <= i < |s| ==> Plain(s[i])
  {
    EscapeGrows(s);
    assert |Quote(s)| == |Escape(s)| + 2;
  }
}
