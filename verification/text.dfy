/**
 * The few `strings` and `path/filepath` helpers the CLI relies on, over
 * `seq<char>`. Case mapping is ASCII only; `Join` is only defined for
 * already clean, slash-separated segments.
 */
module Text {

  /** ASCII lower-casing of one character (`unicode.ToLower` restricted to ASCII). */
  function LowerChar(c: char): (r: char)
    ensures 'A' <= c <= 'Z' ==> r as int == c as int + 32
    ensures !('A' <= c <= 'Z') ==> r == c
    ensures !('A' <= r <= 'Z')
  {
    if 'A' <= c <= 'Z' then (c as int + 32) as char else c
  }

  /** `strings.ToLower` on ASCII text. */
  function ToLower(s: string): (r: string)
    ensures |r| == |s|
    ensures forall i :: 0 <= i < |s| ==> r[i] == LowerChar(s[i])
  {
    seq(|s|, i requires 0 <= i < |s| => LowerChar(s[i]))
  }

  lemma ToLowerIdempotent(s: string)
    ensures ToLower(ToLower(s)) == ToLower(s)
  {
  }

  lemma ToLowerAppend(a: string, b: string)
    ensures ToLower(a + b) == ToLower(a) + ToLower(b)
  {
  }

  /** `strings.EqualFold`, restricted to ASCII case folding. */
  predicate EqualFold(a: string, b: string)
  {
    ToLower(a) == ToLower(b)
  }

  predicate HasPrefix(s: string, prefix: string)
  {
    |prefix| <= |s| && s[..|prefix|] == prefix
  }

  predicate HasSuffix(s: string, suffix: string)
  {
    |suffix| <= |s| && s[|s| - |suffix|..] == suffix
  }

  /** `strings.Contains`. */
  predicate Contains(s: string, sub: string)
    decreases |s|
  {
    HasPrefix(s, sub) || (|s| > 0 && Contains(s[1..], sub))
  }

  /** `strings.TrimPrefix`: removes one leading occurrence of `prefix`, if any. */
  function TrimPrefix(s: string, prefix: string): (r: string)
    ensures HasPrefix(s, prefix) ==> s == prefix + r
    ensures !HasPrefix(s, prefix) ==> r == s
  {
    if HasPrefix(s, prefix) then s[|prefix|..] else s
  }

  /** `strings.TrimSuffix`: removes one trailing occurrence of `suffix`, if any. */
  function TrimSuffix(s: string, suffix: string): (r: string)
    ensures HasSuffix(s, suffix) ==> s == r + suffix
    ensures !HasSuffix(s, suffix) ==> r == s
  {
    if HasSuffix(s, suffix) then s[..|s| - |suffix|] else s
  }

  predicate NoBackslash(s: string)
  {
    forall i :: 0 <= i < |s| ==> s[i] != '\\'
  }

  /** `strings.ReplaceAll(s, "\\", "/")`. */
  function SlashPath(s: string): (r: string)
    ensures |r| == |s| && NoBackslash(r)
    ensures forall i :: 0 <= i < |s| ==> r[i] == (if s[i] == '\\' then '/' else s[i])
  {
    seq(|s|, i requires 0 <= i < |s| => if s[i] == '\\' then '/' else s[i])
  }

  lemma SlashPathIdentity(s: string)
    requires NoBackslash(s)
    ensures SlashPath(s) == s
  {
  }

  /**
   * `filepath.Join(a, b)` for clean, slash-separated segments: an empty
   * segment is dropped and one separator is put between the two others.
   */
  function Join(a: string, b: string): (r: string)
    ensures a == "" ==> r == b
    ensures b == "" ==> r == a
  {
    if a == "" then b
    else if b == "" then a
    else if a[|a| - 1] == '/' then a + b
    else a + "/" + b
  }

  /** `strings.Trim(s, "\"")`: strips every leading and trailing double quote. */
  function TrimQuotes(s: string): (r: string)
    ensures |r| <= |s|
    ensures |r| > 0 ==> r[0] != '"' && r[|r| - 1] != '"'
    ensures (|s| == 0 || (s[0] != '"' && s[|s| - 1] != '"')) ==> r == s
    decreases |s|
  {
    if |s| > 0 && s[0] == '"' then TrimQuotes(s[1..])
    else if |s| > 0 && s[|s| - 1] == '"' then TrimQuotes(s[..|s| - 1])
    else s
  }

  /** Trimming removes a run of quotes at the front and one at the back, and nothing else. */
  lemma {:induction false} TrimQuotesRemovesOnlyQuotes(s: string)
    ensures exists front, back :: QuotesAround(front, TrimQuotes(s), back) && s == front + TrimQuotes(s) + back
    decreases |s|
  {
    var r := TrimQuotes(s);
    if |s| > 0 && s[0] == '"' {
      var t := s[1..];
      TrimQuotesRemovesOnlyQuotes(t);
      var front, back :| QuotesAround(front, r, back) && t == front + r + back;
      QuoteBefore(front, r, back);
      assert s == ['"'] + t;
    } else if |s| > 0 && s[|s| - 1] == '"' {
      var t := s[..|s| - 1];
      TrimQuotesRemovesOnlyQuotes(t);
      var front, back :| QuotesAround(front, r, back) && t == front + r + back;
      QuoteAfter(front, r, back);
      assert s == t + ['"'];
    } else {
      assert s == [] + r + [];
      assert QuotesAround([], r, []);
    }
  }

  /** `front` and `back` are runs of quotes around `middle`. */
  predicate QuotesAround(front: string, middle: string, back: string)
  {
    AllQuotes(front) && AllQuotes(back)
  }

  lemma QuoteBefore(front: string, middle: string, back: string)
    requires QuotesAround(front, middle, back)
    ensures QuotesAround(['"'] + front, middle, back) && ['"'] + (front + middle + back) == (['"'] + front) + middle + back
  {
  }

  lemma QuoteAfter(front: string, middle: string, back: string)
    requires QuotesAround(front, middle, back)
    ensures QuotesAround(front, middle, back + ['"']) && (front + middle + back) + ['"'] == front + middle + (back + ['"'])
  {
  }

  /** Every character is a double quote. */
  predicate AllQuotes(t: string)
  {
    forall k :: 0 <= k < |t| ==> t[k] == '"'
  }

  /** `strings.Split(s, ",")[0]`: the text before the first comma. */
  function BeforeComma(s: string): (r: string)
    ensures HasPrefix(s, r) && ',' !in r
    ensures |r| < |s| ==> s[|r|] == ','
  {
    if s == [] then []
    else if s[0] == ',' then []
    else [s[0]] + BeforeComma(s[1..])
  }

  function DigitChar(d: nat): char
    requires d < 10
  {
    "0123456789"[d]
  }

  /** Decimal rendering of a natural number, as `%d` prints it. */
  function NatToString(n: nat): (r: string)
    ensures |r| > 0
    ensures forall i :: 0 <= i < |r| ==> '0' <= r[i] <= '9'
  {
    if n < 10 then [DigitChar(n)] else NatToString(n / 10) + [DigitChar(n % 10)]
  }

  /** Decimal rendering of an integer, with a leading minus sign when negative. */
  function IntToString(n: int): (r: string)
    ensures |r| > 0
    ensures (r[0] == '-') <==> n < 0
  {
    if n < 0 then "-" + NatToString(-n) else NatToString(n)
  }

  /** `order` lists every key of `keys` exactly once: one possible iteration order of a Go map. */
  ghost predicate IsOrdering(order: seq<string>, keys: set<string>)
  {
    && (forall i, j :: 0 <= i < j < |order| ==> order[i] != order[j])
    && (forall k :: k in order <==> k in keys)
  }
}
