/** The expression compiler of lib/scheduler.js: `rate(...)` and `cron(...)`
    schedule expressions become 5-field cron strings, or `null` (`None`)
    when the expression is not understood. */
module Expression {
  import opened Values
  import opened JsString

  /** The number of space-separated fields from which a cron body is taken
      to carry a trailing year field. */
  const CronLengthWithYear: nat := 6

  /** The characters JavaScript's regular-expression class `\s` matches. */
  predicate IsRegexWhitespace(c: char) {
    var n := c as int;
    n == 0x09 || n == 0x0A || n == 0x0B || n == 0x0C || n == 0x0D || n == 0x20 ||
    n == 0xA0 || n == 0x1680 || (0x2000 <= n <= 0x200A) || n == 0x2028 ||
    n == 0x2029 || n == 0x202F || n == 0x205F || n == 0x3000 || n == 0xFEFF
  }

  /** `/\s\S+$/` matches `s` from index `i` on: one whitespace character,
      then at least one character up to the end, none of them whitespace. */
  predicate TrailingFieldAt(s: string, i: nat) {
    i + 1 < |s| && IsRegexWhitespace(s[i]) &&
    forall j :: i < j < |s| ==> !IsRegexWhitespace(s[j])
  }

  /** The index of the last whitespace character of `s`, if any. */
  function LastWhitespace(s: string): (r: Option<nat>)
    ensures r.Some? ==>
      r.value < |s| && IsRegexWhitespace(s[r.value]) &&
      forall j :: r.value < j < |s| ==> !IsRegexWhitespace(s[j])
    ensures r.None? ==> forall j :: 0 <= j < |s| ==> !IsRegexWhitespace(s[j])
    decreases |s|
  {
    if |s| == 0 then None
    else if IsRegexWhitespace(s[|s| - 1]) then Some(|s| - 1)
    else LastWhitespace(s[..|s| - 1])
  }

  /** `s.replace(/\s\S+$/, "")`: the match, if there is one, is cut off;
      a string that ends in whitespace or has none is left alone. */
  function StripTrailingField(s: string): (r: string)
    ensures forall i: nat :: TrailingFieldAt(s, i) ==> r == s[..i]
    ensures (forall i: nat :: !TrailingFieldAt(s, i)) ==> r == s
    ensures r <= s
  {
    match LastWhitespace(s)
    case Some(k) =>
      if k + 1 < |s| then
        assert TrailingFieldAt(s, k);
        s[..k]
      else s
    case None => s
  }

  /** `_convertCronSyntax`: a cron body of 6 or more space-separated fields
      loses its trailing field; a shorter one is returned unchanged. */
  function ConvertCronSyntax(cron: string): (r: string)
    ensures r <= cron
  {
    if |Split(cron, ' ')| < CronLengthWithYear then cron
    else StripTrailingField(cron)
  }

  /** A cron body of fewer than 6 fields passes through unchanged. */
  lemma ShortCronUnchanged(cron: string)
    requires |Split(cron, ' ')| < CronLengthWithYear
    ensures ConvertCronSyntax(cron) == cron
  {
  }

  /** A cron body that ends in whitespace is returned unchanged whatever
      its number of fields: the trailing-field pattern cannot match it. */
  lemma TrailingWhitespaceKept(cron: string)
    requires |cron| > 0 && IsRegexWhitespace(cron[|cron| - 1])
    ensures ConvertCronSyntax(cron) == cron
  {
    forall i: nat ensures !TrailingFieldAt(cron, i) {
      if i + 1 < |cron| {
        assert i < |cron| - 1 < |cron|;
      }
    }
  }

  /** No character of `s` is whitespace. */
  predicate NoWhitespace(s: string) {
    forall j :: 0 <= j < |s| ==> !IsRegexWhitespace(s[j])
  }

  /** A space followed by a non-empty run of non-whitespace at the end is
      exactly what the trailing-field pattern cuts off. */
  lemma StripsLastField(head: string, last: string)
    requires last != "" && NoWhitespace(last)
    ensures StripTrailingField(head + [' '] + last) == head
  {
    var s := head + [' '] + last;
    var i := |head|;
    forall j | i < j < |s| ensures !IsRegexWhitespace(s[j]) {
      assert s[j] == last[j - i - 1];
    }
    assert TrailingFieldAt(s, i);
    assert s[..i] == head;
  }

  /** A cron body of 6 or more fields whose last field is a non-empty run
      of non-whitespace loses exactly that field and the space before it. */
  lemma YearFieldDropped(cron: string)
    requires |Split(cron, ' ')| >= CronLengthWithYear
    requires var parts := Split(cron, ' ');
      parts[|parts| - 1] != "" && NoWhitespace(parts[|parts| - 1])
    ensures var parts := Split(cron, ' ');
      ConvertCronSyntax(cron) == Join(parts[..|parts| - 1], ' ') &&
      Split(ConvertCronSyntax(cron), ' ') == parts[..|parts| - 1]
  {
    var parts := Split(cron, ' ');
    var n := |parts|;
    var head := Join(parts[..n - 1], ' ');
    assert cron == head + [' '] + parts[n - 1] by {
      JoinSplit(cron, ' ');
      JoinLast(parts, ' ');
    }
    assert ConvertCronSyntax(cron) == head by {
      StripsLastField(head, parts[n - 1]);
    }
    assert Split(head, ' ') == parts[..n - 1] by {
      SplitJoin(parts[..n - 1], ' ');
    }
  }

  /** `_convertRateToCron`: the first space-separated token is the amount,
      copied verbatim, and the second the unit, matched by its prefix. */
  function ConvertRateToCron(rate: string): (r: Option<string>)
    ensures var parts := Split(rate, ' ');
      r.Some? <==>
        |parts| >= 2 &&
        (StartsWith(parts[1], "minute") || StartsWith(parts[1], "hour") || StartsWith(parts[1], "day"))
  {
    var parts := Split(rate, ' ');
    if |parts| < 2 || parts[1] == "" then None
    else if StartsWith(parts[1], "minute") then Some("*/" + parts[0] + " * * * *")
    else if StartsWith(parts[1], "hour") then Some("0 */" + parts[0] + " * * *")
    else if StartsWith(parts[1], "day") then Some("0 0 */" + parts[0] + " * *")
    else None
  }

  /** A rate whose unit token starts with `minute`, `hour` or `day` gives the
      matching every-N step template with the amount token copied verbatim; any other
      unit, the empty one included, gives `null`. Whatever follows the unit
      after a space is ignored. */
  lemma RateCompiles(amount: string, unit: string, tail: string)
    requires ' ' !in amount && ' ' !in unit
    requires tail == "" || tail[0] == ' '
    ensures var r := ConvertRateToCron(amount + " " + unit + tail);
      && (StartsWith(unit, "minute") ==> r == Some("*/" + amount + " * * * *"))
      && (StartsWith(unit, "hour") ==> r == Some("0 */" + amount + " * * *"))
      && (StartsWith(unit, "day") ==> r == Some("0 0 */" + amount + " * *"))
      && (!StartsWith(unit, "minute") && !StartsWith(unit, "hour") && !StartsWith(unit, "day") ==>
            r == None)
  {
    var rate := amount + " " + unit + tail;
    if tail == "" {
      SplitPiece(unit, ' ');
      assert rate == amount + [' '] + unit;
      SplitAfterPiece(amount, ' ', unit);
    } else {
      assert rate == amount + [' '] + (unit + [' '] + tail[1..]);
      SplitAfterPiece(unit, ' ', tail[1..]);
      SplitAfterPiece(amount, ' ', unit + [' '] + tail[1..]);
    }
    assert Split(rate, ' ')[..2] == [amount, unit];
  }

  /** A rate without a space has no unit token and gives `null`. */
  lemma RateWithoutUnit(rate: string)
    requires ' ' !in rate
    ensures ConvertRateToCron(rate) == None
  {
    SplitPiece(rate, ' ');
  }

  /** Every cron string a rate compiles to has exactly five space-separated
      fields, one of which is the step field built from the amount token. */
  lemma RateGivesFiveFields(rate: string)
    requires ConvertRateToCron(rate).Some?
    ensures var fields := Split(ConvertRateToCron(rate).value, ' ');
      |fields| == 5 && "*/" + Split(rate, ' ')[0] in fields
  {
    var parts := Split(rate, ' ');
    var every := "*/" + parts[0];
    var c := ConvertRateToCron(rate).value;
    assert ' ' !in every by {
      assert ' ' !in parts[0];
      assert forall k :: 2 <= k < |every| ==> every[k] == parts[0][k - 2];
    }
    if StartsWith(parts[1], "minute") {
      FiveFieldTemplate([every, "*", "*", "*", "*"], c);
    } else if StartsWith(parts[1], "hour") {
      FiveFieldTemplate(["0", every, "*", "*", "*"], c);
    } else {
      FiveFieldTemplate(["0", "0", every, "*", "*"], c);
    }
  }

  /** Five space-free fields written out with single spaces split back into
      those fields. */
  lemma FiveFieldTemplate(fields: seq<string>, c: string)
    requires |fields| == 5 && forall i :: 0 <= i < 5 ==> ' ' !in fields[i]
    requires c == fields[0] + " " + fields[1] + " " + fields[2] + " " + fields[3] + " " + fields[4]
    ensures Split(c, ' ') == fields
  {
    JoinFive(fields);
    SplitJoin(fields, ' ');
  }

  /** The join of five fields, written out. */
  lemma JoinFive(f: seq<string>)
    requires |f| == 5
    ensures Join(f, ' ') == f[0] + " " + f[1] + " " + f[2] + " " + f[3] + " " + f[4]
  {
    assert Join(f[4..], ' ') == f[4];
    assert Join(f[3..], ' ') == f[3] + " " + f[4] by { assert f[3..][1..] == f[4..]; }
    assert Join(f[2..], ' ') == f[2] + " " + Join(f[3..], ' ') by { assert f[2..][1..] == f[3..]; }
    assert Join(f[1..], ' ') == f[1] + " " + Join(f[2..], ' ') by { assert f[1..][1..] == f[2..]; }
  }

  /** The text between the wrapper's parentheses: the first `rate(`, then the
      first `cron(`, then the first `)` are removed. */
  function Params(expr: string): (r: string)
    ensures NoParens(expr) ==> r == expr
  {
    var r := ReplaceFirst(ReplaceFirst(ReplaceFirst(expr, "rate(", ""), "cron(", ""), ")", "");
    assert NoParens(expr) ==> r == expr by {
      if NoParens(expr) {
        AbsentPattern(expr, "rate(", 4);
        AbsentPattern(expr, "cron(", 4);
        AbsentPattern(expr, ")", 0);
      }
    }
    r
  }

  /** `_convertExpressionToCron`: dispatch on the `cron(` and `rate(` prefixes;
      any other expression gives `null`. */
  function ConvertExpressionToCron(expr: string): (r: Option<string>)
    ensures StartsWith(expr, "cron(") ==> r.Some?
  {
    var params := Params(expr);
    if StartsWith(expr, "cron(") then Some(ConvertCronSyntax(params))
    else if StartsWith(expr, "rate(") then ConvertRateToCron(params)
    else None
  }

  /** Neither parenthesis occurs in `s`. */
  predicate NoParens(s: string) {
    '(' !in s && ')' !in s
  }

  /** Removing the first `)` of `body + ")"` leaves `body`. */
  lemma CloseRemoved(body: string)
    requires NoParens(body)
    ensures ReplaceFirst(body + ")", ")", "") == body
  {
    var s := body + ")";
    assert OccursAt(s, ")", |body|);
    forall j: nat | j < |body| ensures !OccursAt(s, ")", j) {
      assert s[j] == body[j];
    }
  }

  /** The `cron(` wrapper around a body without parentheses is stripped:
      no `rate(` occurs in it, the leading `cron(` goes, then the `)`. */
  lemma CronWrapperStripped(body: string)
    requires NoParens(body)
    ensures Params("cron(" + body + ")") == body
  {
    var c := "cron(" + body + ")";
    forall j: nat ensures !OccursAt(c, "rate(", j) {
      if j == 0 {
        assert c[0] == 'c';
      } else if j + 5 <= |c| {
        assert c[j + 4] != '(' by {
          if j + 4 < |c| - 1 { assert c[j + 4] == body[j - 1]; }
        }
        assert c[j..j + 5][4] == c[j + 4];
        assert "rate("[4] == '(';
      }
    }
    assert ReplaceFirst(c, "rate(", "") == c;
    assert OccursAt(c, "cron(", 0);
    assert c[5..] == body + ")";
    assert ReplaceFirst(c, "cron(", "") == body + ")";
    CloseRemoved(body);
  }

  /** The `rate(` wrapper around a body without parentheses is stripped:
      the leading `rate(` goes, no `cron(` is left, then the `)` goes. */
  lemma RateWrapperStripped(body: string)
    requires NoParens(body)
    ensures Params("rate(" + body + ")") == body
  {
    var r := "rate(" + body + ")";
    assert OccursAt(r, "rate(", 0);
    assert r[5..] == body + ")";
    assert ReplaceFirst(r, "rate(", "") == body + ")";
    assert '(' !in body + ")";
    AbsentPattern(body + ")", "cron(", 4);
    assert ReplaceFirst(body + ")", "cron(", "") == body + ")";
    CloseRemoved(body);
  }

  /** `cron(body)` compiles to the body with any trailing year field dropped. */
  lemma CronExpressionCompiles(body: string)
    requires NoParens(body)
    ensures ConvertExpressionToCron("cron(" + body + ")") == Some(ConvertCronSyntax(body))
  {
    CronWrapperStripped(body);
    assert StartsWith("cron(" + body + ")", "cron(");
  }

  /** `rate(body)` compiles as the rate body does. */
  lemma RateExpressionCompiles(body: string)
    requires NoParens(body)
    ensures ConvertExpressionToCron("rate(" + body + ")") == ConvertRateToCron(body)
  {
    RateWrapperStripped(body);
    var e := "rate(" + body + ")";
    assert StartsWith(e, "rate(");
    assert e[..5] != "cron(" by { assert e[0] == 'r'; }
  }

  /** Removing the first `)` of a string whose first `)` follows `a`. */
  lemma FirstCloseRemoved(a: string, rest: string)
    requires ')' !in a
    ensures ReplaceFirst(a + ")" + rest, ")", "") == a + rest
  {
    var s := a + ")" + rest;
    assert OccursAt(s, ")", |a|);
    forall j: nat | j < |a| ensures !OccursAt(s, ")", j) {
      assert s[j] == a[j];
    }
    assert s[..|a|] + s[|a| + 1..] == a + rest;
  }

  /** Removing `rate(` and then `cron(` from `cron(body)` leaves `body)`
      when the body holds no `(`. */
  lemma CronPrefixRemoved(body: string)
    requires '(' !in body
    ensures ReplaceFirst(ReplaceFirst("cron(" + body + ")", "rate(", ""), "cron(", "") == body + ")"
  {
    var c := "cron(" + body + ")";
    forall j: nat ensures !OccursAt(c, "rate(", j) {
      if j == 0 {
        assert c[0] == 'c';
      } else if j + 5 <= |c| {
        assert c[j + 4] != '(' by {
          if j + 4 < |c| - 1 { assert c[j + 4] == body[j - 1]; }
        }
        assert c[j..j + 5][4] == c[j + 4];
        assert "rate("[4] == '(';
      }
    }
    assert ReplaceFirst(c, "rate(", "") == c;
    assert OccursAt(c, "cron(", 0);
    assert c[5..] == body + ")";
  }

  /** The parameters of `cron(body)` for a body without `(`: what is left
      once the first `)` of `body)` is removed. */
  lemma CronParams(body: string)
    requires '(' !in body
    ensures Params("cron(" + body + ")") == ReplaceFirst(body + ")", ")", "")
  {
    CronPrefixRemoved(body);
  }

  /** The parameters of `cron(a)b)`: the first `)`, the one after `a`, is
      the one removed. */
  lemma InnerCloseParams(a: string, b: string)
    requires NoParens(a) && NoParens(b)
    ensures Params("cron(" + a + ")" + b + ")") == a + b + ")"
  {
    var body := a + ")" + b;
    assert "cron(" + a + ")" + b + ")" == "cron(" + body + ")";
    CronParams(body);
    assert body + ")" == a + ")" + (b + ")");
    FirstCloseRemoved(a, b + ")");
  }

  /** The `)` removed is the first one, wherever it is: when the body of
      `cron(...)` holds a `)` of its own, that one is dropped, the closing
      one is kept, and the changed body is what gets compiled. */
  lemma InnerCloseParenDropped(a: string, b: string)
    requires NoParens(a) && NoParens(b)
    ensures ConvertExpressionToCron("cron(" + a + ")" + b + ")") == Some(ConvertCronSyntax(a + b + ")"))
  {
    InnerCloseParams(a, b);
    var c := "cron(" + a + ")" + b + ")";
    assert c[..5] == "cron(";
  }

  /** An expression starting with neither `cron(` nor `rate(` gives `null`. */
  lemma UnknownPrefixRejected(expr: string)
    requires !StartsWith(expr, "cron(") && !StartsWith(expr, "rate(")
    ensures ConvertExpressionToCron(expr) == None
  {
  }

  /** End to end, `rate(amount unit)` compiles as its amount and unit say:
      tests/scheduler.test.js:64-79 are instances (`rate(5 minutes)`,
      `rate(6 hour)`, `rate(9 days)`, `rate(3 lightyears)`, ...). */
  lemma RateExpressionTemplates(amount: string, unit: string)
    requires NoParens(amount) && NoParens(unit) && ' ' !in amount && ' ' !in unit
    ensures var r := ConvertExpressionToCron("rate(" + amount + " " + unit + ")");
      && (StartsWith(unit, "minute") ==> r == Some("*/" + amount + " * * * *"))
      && (StartsWith(unit, "hour") ==> r == Some("0 */" + amount + " * * *"))
      && (StartsWith(unit, "day") ==> r == Some("0 0 */" + amount + " * *"))
      && (!StartsWith(unit, "minute") && !StartsWith(unit, "hour") && !StartsWith(unit, "day") ==>
            r == None)
  {
    var body := amount + " " + unit;
    assert NoParens(body);
    assert "rate(" + amount + " " + unit + ")" == "rate(" + body + ")";
    RateExpressionCompiles(body);
    assert body == amount + " " + unit + "";
    RateCompiles(amount, unit, "");
  }

  /** Pieces free of spaces and parentheses, to be joined into a cron body. */
  predicate PlainFields(f: seq<string>) {
    forall i :: 0 <= i < |f| ==> ' ' !in f[i] && NoParens(f[i])
  }

  /** End to end, `cron(...)` around five plain fields compiles to those
      fields (the first case of tests/scheduler.test.js:45-51). */
  lemma CronFiveFieldsKept(f: seq<string>)
    requires |f| == 5 && PlainFields(f)
    ensures ConvertExpressionToCron("cron(" + Join(f, ' ') + ")") == Some(Join(f, ' '))
  {
    JoinWithout(f, ' ', '(');
    JoinWithout(f, ' ', ')');
    CronExpressionCompiles(Join(f, ' '));
    SplitJoin(f, ' ');
    ShortCronUnchanged(Join(f, ' '));
  }

  /** End to end, `cron(...)` around six plain fields, the last a non-empty
      run of non-whitespace such as a year range, compiles to the first five
      (tests/scheduler.test.js:49-50, `cron(15 10 ? * 6L 2002-2005)`). */
  lemma CronSixFieldsDropYear(f: seq<string>)
    requires |f| == 6 && PlainFields(f) && f[5] != "" && NoWhitespace(f[5])
    ensures ConvertExpressionToCron("cron(" + Join(f, ' ') + ")") == Some(Join(f[..5], ' '))
  {
    JoinWithout(f, ' ', '(');
    JoinWithout(f, ' ', ')');
    CronExpressionCompiles(Join(f, ' '));
    SplitJoin(f, ' ');
    YearFieldDropped(Join(f, ' '));
  }
}
