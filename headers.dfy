/**
 * Column names of a scattering table and the regular expressions the
 * component and circuit code filter them with.
 */
module Headers {

  /** FREQUENCY_HEADER */
  const FrequencyHeader: string := "Frequency (Hz)"
  /** The tail of GAIN_HEADER_FORMATER, "S{}{} (dB)". */
  const GainSuffix: string := " (dB)"

  predicate IsDigit(c: char) { '0' <= c <= '9' }

  function DigitChar(d: nat): (c: char)
    requires d < 10
    ensures IsDigit(c)
    ensures c as int - '0' as int == d
  {
    ('0' as int + d) as char
  }

  /** Python's str() of a non-negative int. */
  function Decimal(n: nat): (s: string)
    ensures 1 <= |s|
    ensures n < 10 <==> |s| == 1
    decreases n
  {
    if n < 10 then [DigitChar(n)] else Decimal(n / 10) + [DigitChar(n % 10)]
  }

  /** Every character of a decimal numeral is a digit. */
  lemma {:induction false} DecimalDigits(n: nat)
    ensures forall k :: 0 <= k < |Decimal(n)| ==> IsDigit(Decimal(n)[k])
    decreases n
  {
    if n >= 10 {
      DecimalDigits(n / 10);
    }
  }

  /** Python's str() of an int. */
  function IntToString(i: int): string
  {
    if i < 0 then "-" + Decimal(-i) else Decimal(i)
  }

  /** `"".join(parts)`. */
  function Join(parts: seq<string>): string
  {
    if parts == [] then "" else parts[0] + Join(parts[1..])
  }

  lemma JoinTwo(a: string, b: string)
    ensures Join([a, b]) == a + b
  {
    assert [a, b][1..] == [b];
    assert Join([b]) == b by {
      assert [b][1..] == [];
      assert b + "" == b;
    }
  }

  lemma JoinFour(a: string, b: string, c: string, d: string)
    ensures Join([a, b, c, d]) == a + b + c + d
  {
    assert [a, b, c, d][1..] == [b, c, d];
    JoinThree(b, c, d);
  }

  lemma JoinThree(a: string, b: string, c: string)
    ensures Join([a, b, c]) == a + b + c
  {
    assert [a, b, c][1..] == [b, c];
    JoinTwo(b, c);
  }

  /** "S{first}{second} (dB)" (GAIN_HEADER_FORMATER): the gain column of an ordered port pair. */
  function GainHeader(first: int, second: int): string
  {
    Join(["S", IntToString(first), IntToString(second), GainSuffix])
  }

  /** The gain column's characters: "S", the two port numbers and " (dB)". */
  lemma GainHeaderParts(first: int, second: int)
    ensures GainHeader(first, second) == "S" + IntToString(first) + IntToString(second) + GainSuffix
  {
    JoinFour("S", IntToString(first), IntToString(second), GainSuffix);
  }

  /** `s` starts with `p`, compared character by character as `re.match` does. */
  predicate HasPrefix(s: string, p: string)
    decreases p
  {
    p == [] || (s != [] && s[0] == p[0] && HasPrefix(s[1..], p[1..]))
  }

  lemma {:induction false} HasPrefixIsTake(s: string, p: string)
    ensures HasPrefix(s, p) <==> |p| <= |s| && s[..|p|] == p
    decreases p
  {
    if p != [] && s != [] {
      HasPrefixIsTake(s[1..], p[1..]);
      if |p| <= |s| {
        assert s[..|p|] == [s[0]] + s[1..][..|p| - 1];
        assert p == [p[0]] + p[1..];
      }
    }
  }

  /** The name starts with `S\d{2} \(dB\)`: the gain-column pattern every filter of the source uses. */
  predicate IsTwoDigitGain(name: string)
  {
    |name| >= 3 && name[0] == 'S' && IsDigit(name[1]) && IsDigit(name[2]) && HasPrefix(name[3..], GainSuffix)
  }

  /**
   * The `.*$` tail every filter ends with: without MULTILINE, `.` stops at a
   * line break and `$` matches only at the end or before a final line break,
   * so the name holds no line break except perhaps as its last character.
   */
  predicate OneLine(name: string)
  {
    forall i :: 0 <= i < |name| - 1 ==> name[i] != '\n'
  }

  /** GET_DEPENDENCIES's filter `^(?!(?:Frequency \(Hz\))|(?:S\d{2} \(dB\))).*$`. */
  predicate IsDependency(name: string)
  {
    !HasPrefix(name, FrequencyHeader) && !IsTwoDigitGain(name) && OneLine(name)
  }

  /** The per-hop filter `^(?!S(?!{out}{in})\d{2} \(dB\)).*$` of Circuit.py:125. */
  predicate KeptForHop(name: string, outPort: int, inPort: int)
  {
    (!IsTwoDigitGain(name) || HasPrefix(name[1..], Join([IntToString(outPort), IntToString(inPort)]))) && OneLine(name)
  }

  /** The filter `^(?!(?:S\d{2} \(dB\))).*$` of Circuit.py:149: the columns a result row is matched on. */
  predicate IsCompared(name: string)
  {
    !IsTwoDigitGain(name) && OneLine(name)
  }

  /** A formatted port number holds no line break. */
  lemma IntToStringOneLine(i: int)
    ensures forall k :: 0 <= k < |IntToString(i)| ==> IntToString(i)[k] != '\n'
  {
    var n := if i < 0 then -i else i;
    DecimalDigits(n);
    if i < 0 {
      assert forall k :: 1 <= k < |IntToString(i)| ==> IntToString(i)[k] == Decimal(n)[k - 1];
    }
  }

  /** Every gain name passes the `.*$` tail. */
  lemma GainHeaderOneLine(first: int, second: int)
    ensures OneLine(GainHeader(first, second))
  {
    var a, b := IntToString(first), IntToString(second);
    GainHeaderParts(first, second);
    IntToStringOneLine(first);
    IntToStringOneLine(second);
    var h := GainHeader(first, second);
    forall k | 0 <= k < |h|
      ensures h[k] != '\n'
    {
      if k == 0 {
      } else if k < 1 + |a| {
        assert h[k] == a[k - 1];
      } else if k < 1 + |a| + |b| {
        assert h[k] == b[k - 1 - |a|];
      } else {
        assert h[k] == GainSuffix[k - 1 - |a| - |b|];
      }
    }
  }

  /** A name with an inner line break fails every filter's `.*$` tail, so no filter keeps it. */
  lemma InnerLineBreakFiltered(name: string, i: int, outPort: int, inPort: int)
    requires 0 <= i < |name| - 1 && name[i] == '\n'
    ensures !IsDependency(name) && !KeptForHop(name, outPort, inPort) && !IsCompared(name)
  {
  }

  /** A gain name of two single-digit ports is exactly "S", the two digits and " (dB)". */
  lemma SingleDigitHeader(first: int, second: int)
    requires 0 <= first < 10 && 0 <= second < 10
    ensures GainHeader(first, second) == ['S', DigitChar(first), DigitChar(second)] + GainSuffix
    ensures IsTwoDigitGain(GainHeader(first, second))
    ensures !IsDependency(GainHeader(first, second))
  {
    var h := GainHeader(first, second);
    GainHeaderParts(first, second);
    assert h == ['S', DigitChar(first), DigitChar(second)] + GainSuffix;
    assert h[3..8] == GainSuffix;
    assert h[0] == 'S' != FrequencyHeader[0];
  }

  /** Below ten ports, each ordered port pair names its own gain column. */
  lemma GainHeaderInjective(first: int, second: int, otherFirst: int, otherSecond: int)
    requires 0 <= first < 10 && 0 <= second < 10 && 0 <= otherFirst < 10 && 0 <= otherSecond < 10
    requires GainHeader(first, second) == GainHeader(otherFirst, otherSecond)
    ensures first == otherFirst && second == otherSecond
  {
    SingleDigitHeader(first, second);
    SingleDigitHeader(otherFirst, otherSecond);
    assert GainHeader(first, second)[1] == DigitChar(first);
    assert GainHeader(first, second)[2] == DigitChar(second);
  }

  /** From eleven ports on, two different ordered pairs share a name: (1, 11) and (11, 1) both give "S111 (dB)". */
  lemma WideGainHeadersCollide()
    ensures GainHeader(1, 11) == GainHeader(11, 1) == "S111" + GainSuffix
  {
    GainHeaderParts(1, 11);
    GainHeaderParts(11, 1);
    assert Decimal(11) == "11";
  }

  /**
   * For single-digit ports, the hop filter keeps exactly one gain column
   * of the schema: the one of the requested pair.
   */
  lemma KeptGainIsRequestedPair(first: int, second: int, outPort: int, inPort: int)
    requires 0 <= first < 10 && 0 <= second < 10 && 0 <= outPort < 10 && 0 <= inPort < 10
    ensures KeptForHop(GainHeader(first, second), outPort, inPort) <==> first == outPort && second == inPort
  {
    SingleDigitHeader(first, second);
    var h := GainHeader(first, second);
    var p := Join([IntToString(outPort), IntToString(inPort)]);
    JoinTwo(IntToString(outPort), IntToString(inPort));
    assert p == [DigitChar(outPort), DigitChar(inPort)];
    HasPrefixIsTake(h[1..], p);
    assert h[1..][..2] == [DigitChar(first), DigitChar(second)];
  }

  /**
   * A gain name is classified as a dependency exactly when one of its
   * ports has two or more digits: components of ten or more ports get
   * their own gain columns counted among the dependencies.
   */
  lemma WideHeaderIsDependency(first: nat, second: nat)
    ensures IsDependency(GainHeader(first, second)) <==> first >= 10 || second >= 10
  {
    var h := GainHeader(first, second);
    var a, b := Decimal(first), Decimal(second);
    DecimalDigits(first);
    DecimalDigits(second);
    GainHeaderParts(first, second);
    assert h == "S" + a + b + GainSuffix;
    assert h[0] == 'S' != FrequencyHeader[0];
    assert !HasPrefix(h, FrequencyHeader);
    if first < 10 && second < 10 {
      SingleDigitHeader(first, second);
    } else if first >= 10 {
      assert |a| >= 2;
      assert h[3] == (a + b + GainSuffix)[2];
      assert IsDigit(h[3]);
    } else {
      assert |a| == 1 && |b| >= 2;
      assert h[3] == b[1];
      assert IsDigit(h[3]);
    }
  }
}
