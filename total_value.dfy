/** The footprint-total cleaner `limpiar_valor_total` (app.py 442-450, repeated
    at 504-513): the first stretch of digits, signs, points and commas in the
    cell's text, commas removed, read as a decimal; 0.0 when there is no such
    stretch or it does not read as a number. */
module TotalValue {
  import opened Wrappers
  import opened Seqs
  import opened Text

  /** A character of the class `[\-\d\.,]`. */
  predicate IsNumberChar(c: char)
  {
    c == '-' || IsDigit(c) || c == '.' || c == ','
  }

  /** Length of the stretch of number characters starting at `i`. */
  function RunLength(s: string, i: nat): (n: nat)
    requires i <= |s|
    ensures i + n <= |s|
    ensures forall k :: i <= k < i + n ==> IsNumberChar(s[k])
    ensures i + n == |s| || !IsNumberChar(s[i + n])
    decreases |s| - i
  {
    if i < |s| && IsNumberChar(s[i]) then 1 + RunLength(s, i + 1) else 0
  }

  /** `re.search(r"[\-\d\.,]+", s).group(0)`, or `None` when nothing matches. */
  function NumberRun(s: string): Option<string>
  {
    match FirstWhere(s, IsNumberChar)
    case None => None
    case Some(i) => Some(s[i..i + RunLength(s, i)])
  }

  /** The run found is the leftmost stretch of number characters that cannot be
      extended on the right. */
  lemma NumberRunAt(s: string, i: nat, j: nat)
    requires i < j <= |s|
    requires forall k :: 0 <= k < i ==> !IsNumberChar(s[k])
    requires forall k :: i <= k < j ==> IsNumberChar(s[k])
    requires j == |s| || !IsNumberChar(s[j])
    ensures NumberRun(s) == Some(s[i..j])
  {
    var f := FirstWhere(s, IsNumberChar);
    assert IsNumberChar(s[i]);
    assert f.Some?;
    assert f.value <= i;
    assert IsNumberChar(s[f.value]);
    RunLengthExact(s, i, j);
  }

  /** Nothing is found exactly when the text has no number character. */
  lemma NumberRunNone(s: string)
    ensures NumberRun(s).None? <==> forall k :: 0 <= k < |s| ==> !IsNumberChar(s[k])
  {
  }

  lemma {:induction false} RunLengthExact(s: string, i: nat, j: nat)
    requires i <= j <= |s|
    requires forall k :: i <= k < j ==> IsNumberChar(s[k])
    requires j == |s| || !IsNumberChar(s[j])
    ensures RunLength(s, i) == j - i
    decreases j - i
  {
    if i < j {
      RunLengthExact(s, i + 1, j);
    }
  }

  /** `limpiar_valor_total` applied to the text of a value. */
  function CleanTotal(s: string): real
  {
    match NumberRun(s)
    case None => 0.0
    case Some(run) => ParseDecimal(RemoveChar(run, ',')).GetOr(0.0)
  }

  /** A text with no digit, sign, point or comma cleans to 0.0. */
  lemma CleanTotalNoNumber(s: string)
    requires forall k :: 0 <= k < |s| ==> !IsNumberChar(s[k])
    ensures CleanTotal(s) == 0.0
  {
    assert FirstWhere(s, IsNumberChar).None?;
  }

  /** The rendering of an integer cleans back to that integer. */
  lemma CleanTotalOfInt(i: int)
    ensures CleanTotal(IntToString(i)) == i as real
  {
    var s := IntToString(i);
    IntTextNumberChars(i);
    assert FirstWhere(s, IsNumberChar) == Some(0);
    AllRun(s, 0);
    assert s[0..|s|] == s;
    RemoveAbsent(s, ',');
    ParseIntToString(i);
  }

  lemma IntTextNumberChars(i: int)
    ensures forall k :: 0 <= k < |IntToString(i)| ==> IsNumberChar(IntToString(i)[k])
  {
    var s := IntToString(i);
    var t := NatToString(if i < 0 then -i else i);
    assert forall k :: 0 <= k < |t| ==> IsNumberChar(t[k]);
    if i < 0 {
      assert s == "-" + t;
      assert forall k :: 1 <= k < |s| ==> s[k] == t[k - 1];
    }
  }

  /** From `i` on, a text made of number characters is one run. */
  lemma {:induction false} AllRun(s: string, i: nat)
    requires i <= |s| && forall k :: 0 <= k < |s| ==> IsNumberChar(s[k])
    ensures RunLength(s, i) == |s| - i
    decreases |s| - i
  {
    if i < |s| {
      AllRun(s, i + 1);
    }
  }

  /** Removing a character that does not occur changes nothing. */
  lemma {:induction false} RemoveAbsent(s: string, c: char)
    requires forall k :: 0 <= k < |s| ==> s[k] != c
    ensures RemoveChar(s, c) == s
  {
    FilterAll(s, x => x != c);
  }

  /** "1,234.56 kg" cleans to 1234.56. */
  lemma ExampleThousands()
    ensures CleanTotal("1,234.56 kg") == 1234.56
  {
    var s := "1,234.56 kg";
    NumberRunAt(s, 0, 8);
    assert s[0..8] == "1,234.56";
    ExampleRemoveComma();
    ExampleParse();
  }

  lemma ExampleRemoveComma()
    ensures RemoveChar("1,234.56", ',') == "1234.56"
  {
    assert "1,234.56" == "1" + [','] + "234.56";
    RemoveOne("1", ',', "234.56");
    assert "1" + "234.56" == "1234.56";
  }

  lemma ExampleParse()
    ensures ParseDecimal("1234.56") == Some(1234.56)
  {
    var s := "1234.56";
    DotAtFour();
    assert s[..4] == "1234" && s[5..] == "56";
    DigitsExample();
  }

  lemma DotAtFour()
    ensures IndexOf("1234.56", ".") == Some(4)
  {
    var s := "1234.56";
    assert OccursAt(s, ".", 4);
    forall j | 0 <= j < 4
      ensures !OccursAt(s, ".", j)
    {
      assert s[j..j + 1] == [s[j]];
    }
  }

  lemma DigitsExample()
    ensures DigitsValue("1234") == 1234 && DigitsValue("56") == 56
  {
    assert "1234"[..3] == "123" && "123"[..2] == "12" && "12"[..1] == "1" && "1"[..0] == "";
    assert "56"[..1] == "5" && "5"[..0] == "";
  }

  /** "N/D" and "" clean to 0.0. */
  lemma ExamplesNoNumber()
    ensures CleanTotal("N/D") == 0.0
    ensures CleanTotal("") == 0.0
  {
    CleanTotalNoNumber("N/D");
    CleanTotalNoNumber("");
  }

  /** "-3.2" cleans to -3.2. */
  lemma ExampleNegative()
    ensures CleanTotal("-3.2") == -3.2
  {
    var s := "-3.2";
    NumberRunAt(s, 0, 4);
    assert s[0..4] == s;
    RemoveAbsent(s, ',');
    ExampleParseNegative();
  }

  lemma ExampleParseNegative()
    ensures ParseDecimal("-3.2") == Some(-3.2)
  {
    var u := "-3.2"[1..];
    assert u == "3.2";
    assert u[1..2] == ".";
    assert u[0..1][0] == '3';
    assert OccursAt(u, ".", 1) && !OccursAt(u, ".", 0);
    assert IndexOf(u, ".") == Some(1);
    assert u[..1] == "3" && u[2..] == "2";
    assert DigitsValue("3") == 3 by { assert "3"[..0] == ""; }
    assert DigitsValue("2") == 2 by { assert "2"[..0] == ""; }
  }
}
