/** The ingredient list of a recipe (src/components/ingredients.component.ts):
    amounts rescaled to the chosen number of servings by rewriting the first
    number in each amount string, a checklist of ingredient names, and the
    shopping-list text built from the checked ones. */
module Ingredients {
  import opened Wrappers
  import opened Models
  import opened JsText
  import opened JsNumber
  import opened Checklist

  const DefaultBaseServings: int := 4

  // ---------------------------------------------------------------------
  // The regular expression /(\d+\/\d+|\d*\.?\d+)/, leftmost match

  /** The first alternative `\d+\/\d+` tried at `p`: digits, a slash and
      digits; both digit runs are maximal. */
  function FractionAt(s: string, p: nat): (r: Option<nat>)
    requires p <= |s|
    ensures r.Some? ==> p < r.value <= |s|
  {
    var q := DigitRunEnd(s, p);
    if q > p && q + 1 < |s| && s[q] == '/' && IsDigit(s[q + 1]) then Some(DigitRunEnd(s, q + 1))
    else None
  }

  /** The second alternative `\d*\.?\d+` tried at `p`, with the regular
      expression's backtracking worked out: digits, then a point and digits
      when a digit follows the point, otherwise the digits alone. */
  function DecimalAt(s: string, p: nat): (r: Option<nat>)
    requires p <= |s|
    ensures r.Some? ==> p < r.value <= |s|
  {
    var q := DigitRunEnd(s, p);
    if q + 1 < |s| && s[q] == '.' && IsDigit(s[q + 1]) then Some(DigitRunEnd(s, q + 1))
    else if q > p then Some(q)
    else None
  }

  /** Whether a token can start at `p`: a digit, or a point followed by a
      digit. */
  predicate StartsToken(s: string, p: nat) {
    p < |s| && (IsDigit(s[p]) || (s[p] == '.' && p + 1 < |s| && IsDigit(s[p + 1])))
  }

  /** The alternation at `p`: the first alternative when it matches, the
      second otherwise. A match exists exactly where a token can start. */
  function MatchAt(s: string, p: nat): (r: Option<nat>)
    requires p <= |s|
    ensures r.Some? ==> p < r.value <= |s|
    ensures r.Some? <==> StartsToken(s, p)
  {
    if FractionAt(s, p).Some? then FractionAt(s, p) else DecimalAt(s, p)
  }

  /** A match: the text `s[start..end]`. */
  datatype Token = Token(start: nat, end: nat)

  /** `s.match(re)` scanning from `from`: the match at the leftmost position
      where one exists. */
  function FindToken(s: string, from: nat): (r: Option<Token>)
    requires from <= |s|
    ensures r.Some? ==> from <= r.value.start < r.value.end <= |s|
    ensures r.Some? ==> MatchAt(s, r.value.start) == Some(r.value.end)
    ensures r.Some? ==> forall p | from <= p < r.value.start :: !StartsToken(s, p)
    ensures r.None? ==> forall p | from <= p < |s| :: !StartsToken(s, p)
    decreases |s| - from
  {
    if from == |s| then None
    else match MatchAt(s, from)
      case Some(e) => Some(Token(from, e))
      case None => FindToken(s, from + 1)
  }

  /** An amount without any digit has no token. */
  lemma NoDigitNoToken(s: string)
    requires forall i | 0 <= i < |s| :: !IsDigit(s[i])
    ensures FindToken(s, 0).None?
  {
    assert forall p | 0 <= p < |s| :: !StartsToken(s, p);
  }

  /** Wherever the text of a match occurs, a token can start. */
  lemma OccurrenceStartsToken(s: string, t: Token, p: nat)
    requires t.start < t.end <= |s| && MatchAt(s, t.start) == Some(t.end)
    ensures OccursAt(s, s[t.start..t.end], p) ==> StartsToken(s, p)
  {
    var tok := s[t.start..t.end];
    assert StartsToken(s, t.start);
    if OccursAt(s, tok, p) {
      assert s[p] == tok[0] == s[t.start];
      if !IsDigit(s[t.start]) {
        assert |tok| >= 2 by {
          assert FractionAt(s, t.start).None?;
          assert DigitRunEnd(s, t.start) == t.start;
        }
        assert s[p + 1] == tok[1] == s[t.start + 1];
      }
    }
  }

  /** The first occurrence of the matched text is the match itself: any
      earlier occurrence would start a token further left. So `replace`
      with the matched text rewrites exactly the matched span. */
  lemma {:induction false} FirstOccurrenceIsMatch(s: string, t: Token)
    requires FindToken(s, 0) == Some(t)
    ensures IndexOf(s, s[t.start..t.end], 0) == Some(t.start)
  {
    var tok := s[t.start..t.end];
    assert OccursAt(s, tok, t.start);
    forall p | 0 <= p < t.start
      ensures !OccursAt(s, tok, p)
    {
      OccurrenceStartsToken(s, t, p);
    }
  }

  // ---------------------------------------------------------------------
  // Valuing the token

  /** The text before the first slash (the whole text when there is none). */
  function UpToSlash(s: string): (r: string)
    ensures |r| <= |s| && r == s[..|r|]
    ensures '/' !in r
    ensures |r| < |s| ==> s[|r|] == '/'
  {
    if s == [] || s[0] == '/' then [] else [s[0]] + UpToSlash(s[1..])
  }

  /** `numStr.includes('/')` chooses `parseFloat(parts[0]) /
      parseFloat(parts[1])` over the pieces of `numStr.split('/')`;
      otherwise `parseFloat(numStr)`. */
  function TokenValue(numStr: string): Number {
    if '/' in numStr then
      var first := UpToSlash(numStr);
      var second := UpToSlash(numStr[|first| + 1..]);
      Quotient(ParseFloat(first), ParseFloat(second))
    else ParseFloat(numStr)
  }

  /** A token from the first alternative is two digit runs around a
      slash. */
  lemma FractionTokenShape(s: string, p: nat)
    requires p <= |s| && FractionAt(s, p).Some?
    ensures var q := DigitRunEnd(s, p);
            var e := FractionAt(s, p).value;
            p < q && q + 1 < e && AllDigits(s[p..q]) && AllDigits(s[q + 1..e])
            && s[p..e] == s[p..q] + "/" + s[q + 1..e]
  {
    var q := DigitRunEnd(s, p);
    var e := DigitRunEnd(s, q + 1);
    assert FractionAt(s, p) == Some(e);
    DigitRunSlice(s, p);
    DigitRunSlice(s, q + 1);
    SplitAround(s, p, q, e);
  }

  /** A slice is the part before `q`, the character at `q` and the part
      after it. */
  lemma SplitAround(s: string, p: nat, q: nat, e: nat)
    requires p <= q < e <= |s|
    ensures s[p..e] == s[p..q] + [s[q]] + s[q + 1..e]
  {
  }

  /** Digits, a slash and digits are valued as the quotient of the two
      digit runs. */
  lemma FractionTextValue(num: string, den: string)
    requires |num| > 0 && AllDigits(num) && |den| > 0 && AllDigits(den)
    ensures TokenValue(num + "/" + den) ==
              Quotient(Finite(DigitsValue(num) as real), Finite(DigitsValue(den) as real))
  {
    var tok := num + "/" + den;
    assert tok[|num|] == '/';
    SlashSplit(num, den);
    ParseWhole(num);
    ParseWhole(den);
  }

  /** `split('/')` of digits, a slash and digits gives the two digit runs. */
  lemma SlashSplit(num: string, den: string)
    requires AllDigits(num) && AllDigits(den)
    ensures |num| < |num + "/" + den|
    ensures UpToSlash(num + "/" + den) == num
    ensures (num + "/" + den)[|num| + 1..] == den
    ensures UpToSlash(den) == den
  {
    assert num + "/" + den == num + ("/" + den);
    UpToSlashOfDigits(num, "/" + den);
    UpToSlashOfDigits(den, "");
    assert den + "" == den;
  }

  /** The text before the first slash of digits followed by a slash (or by
      nothing) is the digits. */
  lemma {:induction false} UpToSlashOfDigits(ds: string, rest: string)
    requires AllDigits(ds)
    requires rest == [] || rest[0] == '/'
    ensures UpToSlash(ds + rest) == ds
    decreases |ds|
  {
    if ds != [] {
      assert (ds + rest)[1..] == ds[1..] + rest;
      UpToSlashOfDigits(ds[1..], rest);
    } else {
      assert ds + rest == rest;
    }
  }

  /** A token from the second alternative is a digit run, or a (possibly
      empty) digit run, a point and a digit run. */
  lemma DecimalTokenShape(s: string, p: nat)
    requires p <= |s| && DecimalAt(s, p).Some?
    ensures var q := DigitRunEnd(s, p);
            var e := DecimalAt(s, p).value;
            AllDigits(s[p..q])
            && (e == q ==> p < q)
            && (e != q ==> q + 1 < e && AllDigits(s[q + 1..e]) && s[p..e] == s[p..q] + "." + s[q + 1..e])
  {
    var q := DigitRunEnd(s, p);
    var e := DecimalAt(s, p).value;
    if e != q {
      assert e == DigitRunEnd(s, q + 1);
      assert s[p..e] == s[p..q] + "." + s[q + 1..e];
    }
  }

  /** A digit run is valued as its digits. */
  lemma WholeTextValue(w: string)
    requires |w| > 0 && AllDigits(w)
    ensures TokenValue(w) == Finite(DigitsValue(w) as real)
  {
    assert '/' !in w by {
      forall k | 0 <= k < |w| ensures w[k] != '/' {
        assert IsDigit(w[k]);
      }
    }
    ParseWhole(w);
  }

  /** Digits (possibly none), a point and digits hold no slash and are
      valued as a decimal. */
  lemma PointTextValue(w: string, f: string)
    requires AllDigits(w) && |f| > 0 && AllDigits(f)
    ensures '/' !in w + "." + f
    ensures TokenValue(w + "." + f) ==
              Finite(DigitsValue(w) as real + (DigitsValue(f) as real) / (Pow10(|f|) as real))
  {
    PointTextHasNoSlash(w, f);
    if w == [] {
      assert w + "." + f == "." + f;
      ParsePointFraction(f);
    } else {
      ParseWithFraction(w, f);
    }
  }

  lemma PointTextHasNoSlash(w: string, f: string)
    requires AllDigits(w) && AllDigits(f)
    ensures '/' !in w + "." + f
  {
    var tok := w + "." + f;
    forall k | 0 <= k < |tok| ensures tok[k] != '/' {
      assert k < |w| || k == |w| || tok[k] == f[k - |w| - 1];
    }
  }

  // ---------------------------------------------------------------------
  // Rescaling an amount and the list

  /** The text that replaces the token: the scaled value rounded to
      hundredths and formatted, with the trailing-zero trimming applied. */
  function ScaledText(value: Number, scale: real): string {
    TrimZeros(FormatRounded(Times(value, scale)))
  }

  /** The new text for a matched token: none when its value is NaN (a 0/0
      fraction), otherwise the scaled value formatted. */
  function NewAmountText(numStr: string, scale: real): (r: Option<string>)
    ensures r.None? <==> TokenValue(numStr).NaN?
    ensures r.Some? ==> r.value == FormatRounded(Times(TokenValue(numStr), scale))
    ensures TokenValue(numStr).Finite? && RoundHundredths(TokenValue(numStr).value * scale) >= 0 ==>
              r.Some? && ParseFloat(r.value)
                         == Finite((RoundHundredths(TokenValue(numStr).value * scale) as real) / 100.0)
    ensures TokenValue(numStr).PosInfinity? && scale > 0.0 ==> r == Some("Infinity")
  {
    var value := TokenValue(numStr);
    if value.NaN? then None
    else
      var scaled := Times(value, scale);
      TrimZerosKeepsFormatted(scaled);
      if scaled.Finite? && RoundHundredths(scaled.value) >= 0 then
        ParseFormattedRoundTrip(scaled.value);
        Some(ScaledText(value, scale))
      else
        Some(ScaledText(value, scale))
  }

  /** `amount.match(re)` followed by `amount.replace(numStr, text)`: the
      amount is kept when there is no token or no new text for it;
      otherwise the first occurrence of the token's text is replaced. */
  function RewriteToken(amount: string, newText: string -> Option<string>): string {
    match FindToken(amount, 0)
    case None => amount
    case Some(t) =>
      var numStr := amount[t.start..t.end];
      match newText(numStr)
      case None => amount
      case Some(text) => ReplaceFirst(amount, numStr, text)
  }

  /** The amount after scaling. */
  function ScaleAmount(amount: string, scale: real): string {
    RewriteToken(amount, numStr => NewAmountText(numStr, scale))
  }

  /** Only the leftmost token is rewritten: the text before it, which starts
      no token, and the text after it are kept as they are. */
  lemma {:induction false} RewriteTokenSplices(amount: string, newText: string -> Option<string>)
    requires FindToken(amount, 0).Some?
    ensures var t := FindToken(amount, 0).value;
            (forall p | 0 <= p < t.start :: !StartsToken(amount, p)) &&
            RewriteToken(amount, newText) ==
              match newText(amount[t.start..t.end])
              case None => amount
              case Some(text) => amount[..t.start] + text + amount[t.end..]
  {
    var t := FindToken(amount, 0).value;
    FirstOccurrenceIsMatch(amount, t);
    assert t.start + |amount[t.start..t.end]| == t.end;
  }

  /** The scaled amount: unchanged when the token's value is NaN, otherwise
      the token replaced by its new text (see `NewAmountText`). */
  lemma {:induction false} ScaleAmountSplices(amount: string, scale: real)
    requires FindToken(amount, 0).Some?
    ensures var t := FindToken(amount, 0).value;
            (forall p | 0 <= p < t.start :: !StartsToken(amount, p)) &&
            ScaleAmount(amount, scale) ==
              match NewAmountText(amount[t.start..t.end], scale)
              case None => amount
              case Some(text) => amount[..t.start] + text + amount[t.end..]
  {
    RewriteTokenSplices(amount, numStr => NewAmountText(numStr, scale));
  }

  /** An amount without any digit (such as "适量") is left as it is. */
  lemma {:induction false} ScaleAmountWithoutDigits(amount: string, scale: real)
    requires forall i | 0 <= i < |amount| :: !IsDigit(amount[i])
    ensures ScaleAmount(amount, scale) == amount
  {
    NoDigitNoToken(amount);
  }

  /** The splice for a known token, value and scaled text. */
  lemma ScaleAmountAt(amount: string, scale: real, t: Token, text: string)
    requires FindToken(amount, 0) == Some(t)
    requires NewAmountText(amount[t.start..t.end], scale) == Some(text)
    ensures ScaleAmount(amount, scale) == amount[..t.start] + text + amount[t.end..]
  {
    RewriteTokenSplices(amount, numStr => NewAmountText(numStr, scale));
  }

  /** The same, for a token at the very start of the amount. */
  lemma ScaleAmountAtStart(amount: string, scale: real, t: Token, text: string)
    requires FindToken(amount, 0) == Some(t) && t.start == 0
    requires NewAmountText(amount[t.start..t.end], scale) == Some(text)
    ensures ScaleAmount(amount, scale) == text + amount[t.end..]
  {
    ScaleAmountAt(amount, scale, t, text);
    EmptyPrefix(amount[..t.start], text, amount[t.end..]);
  }

  lemma EmptyPrefix(a: string, b: string, c: string)
    requires |a| == 0
    ensures a + b + c == b + c
  {
    assert a + b == b;
  }

  lemma GramsToken()
    ensures FindToken("200g", 0) == Some(Token(0, 3))
  {
    var s := "200g";
    assert DigitRunEnd(s, 0) == 3;
    assert FractionAt(s, 0).None?;
  }

  lemma GramsValue()
    ensures TokenValue("200") == Finite(200.0)
  {
    assert '/' !in "200";
    ParseWhole("200");
    assert DigitsValue("200") == 200 by {
      assert "200"[..2] == "20";
      assert "20"[..1] == "2";
    }
  }

  lemma HundredText()
    ensures ScaledText(Finite(200.0), 2.0 / 4.0) == "100"
  {
    assert RoundHundredths(100.0) == 10000;
    assert FormatRounded(Finite(100.0)) == "100";
    TrimZerosKeepsFormatted(Finite(100.0));
  }

  /** "200g" for 4 scaled to 2 servings reads "100g". */
  lemma {:induction false} ScaleGramsExample()
    ensures ScaleAmount("200g", 2.0 / 4.0) == "100g"
  {
    var s := "200g";
    GramsToken();
    assert s[0..3] == "200";
    GramsValue();
    HundredText();
    ScaleAmountAtStart(s, 2.0 / 4.0, Token(0, 3), "100");
    assert s[3..] == "g";
    JoinGrams();
  }

  lemma HalfCupToken()
    ensures FindToken("1/2 杯", 0) == Some(Token(0, 3))
  {
    var s := "1/2 杯";
    assert DigitRunEnd(s, 0) == 1;
    assert DigitRunEnd(s, 2) == 3;
    assert FractionAt(s, 0) == Some(3);
  }

  lemma HalfCupValue()
    ensures TokenValue("1/2") == Finite(0.5)
  {
    assert "1" + "/" + "2" == "1/2";
    assert DigitsValue("1") == 1 && DigitsValue("2") == 2 by {
      assert "1"[..0] == [] && "2"[..0] == [];
    }
    FractionTextValue("1", "2");
  }

  lemma ThreeQuartersText()
    ensures ScaledText(Finite(0.5), 6.0 / 4.0) == "0.75"
  {
    assert RoundHundredths(0.75) == 75;
    assert FormatRounded(Finite(0.75)) == "0.75";
    TrimZerosKeepsFormatted(Finite(0.75));
  }

  lemma JoinGrams()
    ensures "100" + "g" == "100g"
  {
  }

  lemma JoinCups()
    ensures "0.75" + " 杯" == "0.75 杯"
  {
  }

  /** "1/2 杯" for 4 scaled to 6 servings reads "0.75 杯". */
  lemma {:induction false} ScaleFractionExample()
    ensures ScaleAmount("1/2 杯", 6.0 / 4.0) == "0.75 杯"
  {
    var s := "1/2 杯";
    HalfCupToken();
    assert s[0..3] == "1/2";
    HalfCupValue();
    ThreeQuartersText();
    ScaleAmountAtStart(s, 6.0 / 4.0, Token(0, 3), "0.75");
    assert s[3..] == " 杯";
    JoinCups();
  }

  /** `this.baseServings() || 4`. */
  function EffectiveBase(baseServings: int): (b: int)
    ensures b != 0
    ensures baseServings == 0 ==> b == DefaultBaseServings
    ensures baseServings != 0 ==> b == baseServings
  {
    if baseServings == 0 then DefaultBaseServings else baseServings
  }

  function ScaleIngredient(ing: Ingredient, scale: real): (r: Ingredient)
    ensures r.name == ing.name && r.note == ing.note && r.substitute == ing.substitute
    ensures r.amount == ScaleAmount(ing.amount, scale)
  {
    ing.(amount := ScaleAmount(ing.amount, scale))
  }

  /** `scaledIngredients`: with the scale `servings / base` equal to 1 the
      list is returned as it is; otherwise every ingredient keeps its place,
      name, note and substitute, and only its amount is rescaled. */
  function ScaledIngredients(ingredients: seq<Ingredient>, baseServings: int, servings: int): (r: seq<Ingredient>)
    ensures |r| == |ingredients|
    ensures servings == EffectiveBase(baseServings) ==> r == ingredients
    ensures forall i | 0 <= i < |r| ::
              r[i].name == ingredients[i].name && r[i].note == ingredients[i].note &&
              r[i].substitute == ingredients[i].substitute
    ensures servings != EffectiveBase(baseServings) ==>
              forall i | 0 <= i < |r| ::
                r[i].amount == ScaleAmount(ingredients[i].amount, (servings as real) / (EffectiveBase(baseServings) as real))
  {
    var base := EffectiveBase(baseServings);
    var scale := (servings as real) / (base as real);
    if servings == base then ingredients
    else seq(|ingredients|, i requires 0 <= i < |ingredients| => ScaleIngredient(ingredients[i], scale))
  }

  // ---------------------------------------------------------------------
  // The shopping list

  /** `${ing.name}: ${ing.amount}`. */
  function Line(ing: Ingredient): string {
    ing.name + ": " + ing.amount
  }

  /** `.filter(ing => checked.has(ing.name)).map(line)`. */
  function CheckedLines(xs: seq<Ingredient>, checked: set<string>): (r: seq<string>)
    ensures |r| <= |xs|
  {
    if xs == [] then []
    else (if xs[0].name in checked then [Line(xs[0])] else []) + CheckedLines(xs[1..], checked)
  }

  /** The lines follow the order of the list: the lines of a concatenation
      are the lines of the first part, then those of the second. */
  lemma {:induction false} CheckedLinesAppend(xs: seq<Ingredient>, ys: seq<Ingredient>, checked: set<string>)
    ensures CheckedLines(xs + ys, checked) == CheckedLines(xs, checked) + CheckedLines(ys, checked)
    decreases |xs|
  {
    if xs == [] {
      assert xs + ys == ys;
    } else {
      var head := if xs[0].name in checked then [Line(xs[0])] else [];
      assert (xs + ys)[0] == xs[0];
      assert (xs + ys)[1..] == xs[1..] + ys;
      assert CheckedLines(xs + ys, checked) == head + CheckedLines(xs[1..] + ys, checked);
      CheckedLinesAppend(xs[1..], ys, checked);
      assert CheckedLines(xs, checked) == head + CheckedLines(xs[1..], checked);
    }
  }

  /** A line is in the list exactly when some checked ingredient renders to
      it. */
  lemma {:induction false} CheckedLinesMembers(xs: seq<Ingredient>, checked: set<string>, line: string)
    ensures line in CheckedLines(xs, checked) <==>
              exists i | 0 <= i < |xs| :: xs[i].name in checked && Line(xs[i]) == line
    decreases |xs|
  {
    if xs != [] {
      CheckedLinesMembers(xs[1..], checked, line);
      if exists i | 0 <= i < |xs[1..]| :: xs[1..][i].name in checked && Line(xs[1..][i]) == line {
        var i :| 0 <= i < |xs[1..]| && xs[1..][i].name in checked && Line(xs[1..][i]) == line;
        assert xs[i + 1] == xs[1..][i];
      }
      if exists i | 0 <= i < |xs| :: xs[i].name in checked && Line(xs[i]) == line {
        var i :| 0 <= i < |xs| && xs[i].name in checked && Line(xs[i]) == line;
        if i > 0 { assert xs[1..][i - 1] == xs[i]; }
      }
    }
  }

  /** `lines.join(sep)`. */
  function Join(lines: seq<string>, sep: string): string {
    if lines == [] then ""
    else if |lines| == 1 then lines[0]
    else lines[0] + sep + Join(lines[1..], sep)
  }

  /** `text.split('\n')`. */
  function SplitLines(text: string): (r: seq<string>)
    ensures |r| > 0
    decreases |text|
  {
    if '\n' !in text then [text]
    else
      var first := UpToNewline(text);
      [first] + SplitLines(text[|first| + 1..])
  }

  /** The text before the first line break (the whole text when there is
      none). */
  function UpToNewline(s: string): (r: string)
    ensures |r| <= |s| && r == s[..|r|]
    ensures '\n' !in r
    ensures |r| < |s| ==> s[|r|] == '\n'
    ensures '\n' in s ==> |r| < |s|
  {
    if s == [] || s[0] == '\n' then [] else [s[0]] + UpToNewline(s[1..])
  }

  /** Splitting the joined lines at line breaks gives the lines back, when
      none of them holds a line break. */
  lemma {:induction false} SplitJoinedLines(lines: seq<string>)
    requires |lines| > 0
    requires forall i | 0 <= i < |lines| :: '\n' !in lines[i]
    ensures SplitLines(Join(lines, "\n")) == lines
    decreases |lines|
  {
    if |lines| == 1 {
      assert Join(lines, "\n") == lines[0];
    } else {
      var tail := lines[1..];
      assert Join(lines, "\n") == lines[0] + "\n" + Join(tail, "\n");
      SplitAtFirstBreak(lines[0], Join(tail, "\n"));
      assert forall i | 0 <= i < |tail| :: '\n' !in tail[i] by {
        forall i | 0 <= i < |tail| ensures '\n' !in tail[i] {
          assert tail[i] == lines[i + 1];
        }
      }
      SplitJoinedLines(tail);
      assert lines == [lines[0]] + tail;
    }
  }

  /** A line without a break, a break, then the rest: the line comes first
      and the rest is split on its own. */
  lemma SplitAtFirstBreak(line: string, rest: string)
    requires '\n' !in line
    ensures SplitLines(line + "\n" + rest) == [line] + SplitLines(rest)
  {
    var text := line + "\n" + rest;
    assert text[|line|] == '\n';
    UpToNewlineOf(line, "\n" + rest);
    assert line + ("\n" + rest) == text;
    assert text[|line| + 1..] == rest;
  }

  lemma {:induction false} UpToNewlineOf(line: string, rest: string)
    requires '\n' !in line
    requires rest == [] || rest[0] == '\n'
    ensures UpToNewline(line + rest) == line
    decreases |line|
  {
    if line != [] {
      assert (line + rest)[1..] == line[1..] + rest;
      assert line[0] != '\n' by { assert line[0] in line; }
      UpToNewlineOf(line[1..], rest);
    } else {
      assert line + rest == rest;
    }
  }

  /** The text `copyToClipboard` hands to the clipboard. */
  function ShoppingListText(scaled: seq<Ingredient>, checked: set<string>): string {
    Join(CheckedLines(scaled, checked), "\n")
  }

  // ---------------------------------------------------------------------
  // The component

  class IngredientsComponent {
    var ingredients: seq<Ingredient>
    var baseServings: int
    var servings: int
    var checkedItems: set<string>

    /** `servings` is initialised while the inputs still hold their
        defaults, so it starts at 4 whatever base the page binds. */
    constructor (ingredients: seq<Ingredient>, baseServings: int)
      ensures this.ingredients == ingredients && this.baseServings == baseServings
      ensures servings == DefaultBaseServings && checkedItems == {}
    {
      this.ingredients := ingredients;
      this.baseServings := baseServings;
      servings := DefaultBaseServings;
      checkedItems := {};
    }

    /** The `scaledIngredients` computed signal. */
    function Scaled(): seq<Ingredient>
      reads this
    {
      ScaledIngredients(ingredients, baseServings, servings)
    }

    /** `setServings(num)`. */
    method SetServings(num: int)
      modifies this
      ensures servings == num
      ensures ingredients == old(ingredients) && baseServings == old(baseServings)
      ensures checkedItems == old(checkedItems)
    {
      servings := num;
    }

    /** `toggleCheck(itemName)`: only that name changes membership. */
    method ToggleCheck(itemName: string)
      modifies this
      ensures checkedItems == Flip(old(checkedItems), itemName)
      ensures itemName in checkedItems <==> itemName !in old(checkedItems)
      ensures forall k | k != itemName :: k in checkedItems <==> k in old(checkedItems)
      ensures ingredients == old(ingredients) && baseServings == old(baseServings)
      ensures servings == old(servings)
    {
      var newItems := checkedItems;
      if itemName in newItems {
        newItems := newItems - {itemName};
      } else {
        newItems := newItems + {itemName};
      }
      checkedItems := newItems;
    }

    /** The list-building part of `copyToClipboard`: the checked ingredients
        of the scaled list, in its order, one `name: amount` line each. */
    method CopyToClipboard() returns (listText: string)
      ensures listText == ShoppingListText(Scaled(), checkedItems)
    {
      listText := Join(CheckedLines(Scaled(), checkedItems), "\n");
    }
  }
}
