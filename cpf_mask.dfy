/** The CPF input mask of the login screen: every keystroke in the CPF field
    is passed through `FormatCpf`, which keeps at most eleven ASCII digits and
    lays them out as `DDD.DDD.DDD-DD`. */
module CpfMask {

  /** What `\D` in a JavaScript regular expression without the `u` flag does
      not match: the ASCII digits only. */
  predicate IsDigit(c: char) {
    '0' <= c <= '9'
  }

  /** The two characters the mask inserts. */
  predicate IsSeparator(c: char) {
    c == '.' || c == '-'
  }

  predicate NotSeparator(c: char) {
    !IsSeparator(c)
  }

  /** The characters of `s` that satisfy `keep`, in their original order. */
  function Keep(s: string, keep: char -> bool): (r: string)
    ensures |r| <= |s|
    ensures forall i :: 0 <= i < |r| ==> keep(r[i])
  {
    if s == [] then [] else (if keep(s[0]) then [s[0]] else []) + Keep(s[1..], keep)
  }

  /** Every character that passes the filter is kept, as often as it occurs. */
  lemma {:induction false} KeepCounts(s: string, keep: char -> bool)
    ensures forall c :: keep(c) ==> multiset(Keep(s, keep))[c] == multiset(s)[c]
  {
    if s != [] {
      assert s == [s[0]] + s[1..];
      KeepCounts(s[1..], keep);
    }
  }

  /** `input.replace(/\D/g, '')`: the digits of the input, in order. */
  function Digits(s: string): (r: string)
    ensures |r| <= |s|
    ensures forall i :: 0 <= i < |r| ==> IsDigit(r[i])
    ensures forall c :: IsDigit(c) ==> multiset(r)[c] == multiset(s)[c]
  {
    KeepCounts(s, IsDigit);
    Keep(s, IsDigit)
  }

  /** The output with its separators deleted. */
  function StripSeparators(s: string): (r: string)
    ensures forall i :: 0 <= i < |r| ==> !IsSeparator(r[i])
  {
    Keep(s, NotSeparator)
  }

  /** A CPF has eleven digits; the text field's `maxLength` is fourteen. */
  const MaxDigits := 11
  const MaxLength := 14

  /** `numericValue.slice(0, 11)`: the first min(11, |d|) characters. */
  function Truncate(d: string): (r: string)
    ensures |r| == if |d| <= MaxDigits then |d| else MaxDigits
    ensures r == d[..|r|]
  {
    if |d| <= MaxDigits then d else d[..MaxDigits]
  }

  /** The mask as the source applies it: `formattedValue` starts as the
      truncated digits and is rebound under three guards, each inserting one
      separator into the previous value at index 3, 7 and 11 (after its first
      3, 7 and 11 characters). */
  function Mask(t: string): (r: string)
    ensures |r| >= |t|
    ensures |t| <= MaxDigits ==> |r| == if |t| == 0 then 0 else |t| + (|t| - 1) / 3
    ensures |t| > 0 ==> r[|r| - 1] == t[|t| - 1]
    ensures |t| <= 3 ==> r == t
    ensures |t| > 3 ==> r[..3] == t[..3] && r[3] == '.'
  {
    var afterFirst := if |t| > 3 then t[..3] + "." + t[3..] else t;
    var afterSecond := if |t| > 6 then afterFirst[..7] + "." + afterFirst[7..] else afterFirst;
    if |t| > 9 then afterSecond[..11] + "-" + afterSecond[11..] else afterSecond
  }

  /** `formatCPF`: strip the non-digits, keep at most eleven, apply the mask. */
  function FormatCpf(input: string): (r: string)
    ensures |r| <= MaxLength
    ensures forall i :: 0 <= i < |r| ==> IsDigit(r[i]) || IsSeparator(r[i])
  {
    var t := Truncate(Digits(input));
    MaskLayout(t);
    Mask(t)
  }

  /** The four shapes the mask can produce, by the number of digits. */
  lemma MaskShape(t: string)
    requires |t| <= MaxDigits
    ensures |t| <= 3 ==> Mask(t) == t
    ensures 3 < |t| <= 6 ==> Mask(t) == t[..3] + "." + t[3..]
    ensures 6 < |t| <= 9 ==> Mask(t) == t[..3] + "." + t[3..6] + "." + t[6..]
    ensures 9 < |t| ==> Mask(t) == t[..3] + "." + t[3..6] + "." + t[6..9] + "-" + t[9..]
  {
    if |t| > 3 {
      var afterFirst := t[..3] + "." + t[3..];
      if |t| > 6 {
        assert afterFirst[..7] == t[..3] + "." + t[3..6];
        assert afterFirst[7..] == t[6..];
        var afterSecond := t[..3] + "." + t[3..6] + "." + t[6..];
        if |t| > 9 {
          assert afterSecond[..11] == t[..3] + "." + t[3..6] + "." + t[6..9];
          assert afterSecond[11..] == t[9..];
        }
      }
    }
  }

  /** Digit `i` of the truncated value lands at index `i + i / 3` (one
      separator after each complete group of three), the length is the digit
      count plus one per separator, separators stand exactly at indices 3 and
      7 ('.') and 11 ('-'), and every other character is a digit. */
  lemma MaskLayout(t: string)
    requires |t| <= MaxDigits
    requires forall i :: 0 <= i < |t| ==> IsDigit(t[i])
    ensures |Mask(t)| == if |t| == 0 then 0 else |t| + (|t| - 1) / 3
    ensures forall i :: 0 <= i < |t| ==> Mask(t)[i + i / 3] == t[i]
    ensures forall j :: 0 <= j < |Mask(t)| && (j == 3 || j == 7) ==> Mask(t)[j] == '.'
    ensures 11 < |Mask(t)| ==> Mask(t)[11] == '-'
    ensures forall j :: 0 <= j < |Mask(t)| && j != 3 && j != 7 && j != 11 ==> IsDigit(Mask(t)[j])
  {
    MaskShape(t);
    if |t| <= 3 {
    } else if |t| <= 6 {
      LayoutOneSeparator(t, Mask(t));
    } else if |t| <= 9 {
      LayoutTwoSeparators(t, Mask(t));
    } else {
      LayoutThreeSeparators(t, Mask(t));
    }
  }

  lemma LayoutOneSeparator(t: string, m: string)
    requires 3 < |t| <= 6 && m == t[..3] + "." + t[3..]
    requires forall i :: 0 <= i < |t| ==> IsDigit(t[i])
    ensures |m| == |t| + 1 && m[3] == '.'
    ensures forall i :: 0 <= i < |t| ==> m[i + i / 3] == t[i]
    ensures forall j :: 0 <= j < |m| && j != 3 ==> IsDigit(m[j])
  {
    forall i | 0 <= i < |t| ensures m[i + i / 3] == t[i] {
      if i < 3 { assert i / 3 == 0; } else { assert i / 3 == 1; }
    }
  }

  lemma LayoutTwoSeparators(t: string, m: string)
    requires 6 < |t| <= 9 && m == t[..3] + "." + t[3..6] + "." + t[6..]
    requires forall i :: 0 <= i < |t| ==> IsDigit(t[i])
    ensures |m| == |t| + 2 && m[3] == '.' && m[7] == '.'
    ensures forall i :: 0 <= i < |t| ==> m[i + i / 3] == t[i]
    ensures forall j :: 0 <= j < |m| && j != 3 && j != 7 ==> IsDigit(m[j])
  {
    forall i | 0 <= i < |t| ensures m[i + i / 3] == t[i] {
      if i < 3 { assert i / 3 == 0; }
      else if i < 6 { assert i / 3 == 1; }
      else { assert i / 3 == 2; }
    }
  }

  lemma LayoutThreeSeparators(t: string, m: string)
    requires 9 < |t| <= MaxDigits && m == t[..3] + "." + t[3..6] + "." + t[6..9] + "-" + t[9..]
    requires forall i :: 0 <= i < |t| ==> IsDigit(t[i])
    ensures |m| == |t| + 3 && m[3] == '.' && m[7] == '.' && m[11] == '-'
    ensures forall i :: 0 <= i < |t| ==> m[i + i / 3] == t[i]
    ensures forall j :: 0 <= j < |m| && j != 3 && j != 7 && j != 11 ==> IsDigit(m[j])
  {
    forall i | 0 <= i < |t| ensures m[i + i / 3] == t[i] {
      if i < 3 { assert i / 3 == 0; }
      else if i < 6 { assert i / 3 == 1; }
      else if i < 9 { assert i / 3 == 2; }
      else { assert i / 3 == 3; }
    }
  }

  /** The separator rule: the first '.' (index 3) appears iff there are more
      than three digits, the second (index 7) iff more than six, the '-'
      (index 11) iff more than nine; with three or fewer digits the output is
      just those digits. */
  lemma SeparatorRule(input: string)
    ensures var k := |Digits(input)|; var r := FormatCpf(input);
      && (k <= 3 ==> r == Digits(input))
      && (k > 3 <==> |r| > 3 && r[3] == '.')
      && (k > 6 <==> |r| > 7 && r[7] == '.')
      && (k > 9 <==> |r| > 11 && r[11] == '-')
  {
    var t := Truncate(Digits(input));
    MaskShape(t);
    MaskLayout(t);
  }

  /** With eleven or more digits the output is exactly `DDD.DDD.DDD-DD`. */
  lemma FullCpfForm(input: string)
    requires |Digits(input)| >= MaxDigits
    ensures var r := FormatCpf(input);
      && |r| == MaxLength
      && r[3] == '.' && r[7] == '.' && r[11] == '-'
      && forall j :: 0 <= j < MaxLength && j != 3 && j != 7 && j != 11 ==> IsDigit(r[j])
  {
    MaskLayout(Truncate(Digits(input)));
  }

  lemma {:induction false} KeepConcat(a: string, b: string, keep: char -> bool)
    ensures Keep(a + b, keep) == Keep(a, keep) + Keep(b, keep)
  {
    if a == [] {
      assert a + b == b;
    } else {
      assert (a + b)[0] == a[0];
      assert (a + b)[1..] == a[1..] + b;
      KeepConcat(a[1..], b, keep);
    }
  }

  lemma {:induction false} KeepAll(s: string, keep: char -> bool)
    requires forall i :: 0 <= i < |s| ==> keep(s[i])
    ensures Keep(s, keep) == s
  {
    if s != [] {
      KeepAll(s[1..], keep);
    }
  }

  /** Deleting a dropped character `c` between `a` and `b`. */
  lemma KeepAround(a: string, c: char, b: string, keep: char -> bool)
    requires !keep(c)
    ensures Keep(a + [c] + b, keep) == Keep(a, keep) + Keep(b, keep)
  {
    KeepConcat(a + [c], b, keep);
    KeepConcat(a, [c], keep);
  }

  /** A filter that keeps every input digit and drops both separators undoes
      the mask. */
  lemma KeepMask(t: string, keep: char -> bool)
    requires |t| <= MaxDigits
    requires forall i :: 0 <= i < |t| ==> keep(t[i])
    requires !keep('.') && !keep('-')
    ensures Keep(Mask(t), keep) == t
  {
    MaskShape(t);
    if |t| <= 3 {
      KeepAll(t, keep);
    } else if |t| <= 6 {
      KeepMaskFour(t, keep);
    } else if |t| <= 9 {
      KeepMaskSeven(t, keep);
    } else {
      KeepMaskTen(t, keep);
    }
  }

  lemma KeepMaskFour(t: string, keep: char -> bool)
    requires 3 < |t|
    requires forall i :: 0 <= i < |t| ==> keep(t[i])
    requires !keep('.')
    ensures Keep(t[..3] + "." + t[3..], keep) == t
  {
    var a, b := t[..3], t[3..];
    KeepAll(a, keep);
    KeepAll(b, keep);
    KeepAround(a, '.', b, keep);
    assert a + b == t;
  }

  lemma KeepMaskSeven(t: string, keep: char -> bool)
    requires 6 < |t|
    requires forall i :: 0 <= i < |t| ==> keep(t[i])
    requires !keep('.')
    ensures Keep(t[..3] + "." + t[3..6] + "." + t[6..], keep) == t
  {
    var a, b, c := t[..3], t[3..6], t[6..];
    KeepAll(a, keep);
    KeepAll(b, keep);
    KeepAll(c, keep);
    KeepAround(a + "." + b, '.', c, keep);
    KeepAround(a, '.', b, keep);
    assert a + b + c == t;
  }

  lemma KeepMaskTen(t: string, keep: char -> bool)
    requires 9 < |t|
    requires forall i :: 0 <= i < |t| ==> keep(t[i])
    requires !keep('.') && !keep('-')
    ensures Keep(t[..3] + "." + t[3..6] + "." + t[6..9] + "-" + t[9..], keep) == t
  {
    var a, b, c, d := t[..3], t[3..6], t[6..9], t[9..];
    KeepAll(a, keep);
    KeepAll(b, keep);
    KeepAll(c, keep);
    KeepAll(d, keep);
    KeepAround(a + "." + b + "." + c, '-', d, keep);
    KeepAround(a + "." + b, '.', c, keep);
    KeepAround(a, '.', b, keep);
    assert a + b + c + d == t;
  }

  /** Deleting '.' and '-' from the output leaves exactly the first
      min(11, k) digits of the input, in order, k being its digit count. */
  lemma SeparatorsStripToDigits(input: string)
    ensures StripSeparators(FormatCpf(input)) == Truncate(Digits(input))
  {
    KeepMask(Truncate(Digits(input)), NotSeparator);
  }

  /** The digits of the output are the truncated digits of the input. */
  lemma DigitsOfFormatted(input: string)
    ensures Digits(FormatCpf(input)) == Truncate(Digits(input))
  {
    KeepMask(Truncate(Digits(input)), IsDigit);
  }

  /** Formatting an already formatted value changes nothing: the separators
      are non-digits and are stripped again on re-entry. */
  lemma FormatCpfIdempotent(input: string)
    ensures FormatCpf(FormatCpf(input)) == FormatCpf(input)
  {
    DigitsOfFormatted(input);
  }

  /** The CPF field of the login screen; `handleChangeText` stores the
      formatted text. The field therefore always holds a fixed point of the
      mask that fits the field's `maxLength`. */
  class LoginScreen {
    var cpf: string

    ghost predicate Valid()
      reads this
    {
      |cpf| <= MaxLength && FormatCpf(cpf) == cpf
    }

    constructor ()
      ensures Valid() && cpf == ""
    {
      cpf := "";
    }

    method HandleChangeText(text: string)
      modifies this
      ensures Valid()
      ensures cpf == FormatCpf(text)
    {
      FormatCpfIdempotent(text);
      cpf := FormatCpf(text);
    }
  }
}
