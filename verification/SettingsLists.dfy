/** Lists of strings and of 64-bit integers stored as one separated string. Characters are bytes.
    mrsettings/field/format/field_formatter.go, mrsettings/field/parse/field_parser.go */
module SettingsLists {

  datatype Result<T> = Ok(value: T) | Err

  const DEFAULT_MAX_LEN: nat := 65536
  const MAX_INT64_DIGITS: nat := 19
  const MIN_INT64: int := -0x8000_0000_0000_0000
  const MAX_INT64: int := 0x7FFF_FFFF_FFFF_FFFF

  // ---------- joining and splitting ----------

  function Join(values: seq<string>, sep: string): string {
    if values == [] then ""
    else if |values| == 1 then values[0]
    else values[0] + sep + Join(values[1..], sep)
  }

  predicate OccursAt(s: string, sep: string, i: nat) {
    i + |sep| <= |s| && s[i..i + |sep|] == sep
  }

  /** The first occurrence from position i on, or |s| + 1. */
  function Find(s: string, sep: string, i: nat): (k: nat)
    requires i <= |s| + 1
    ensures i <= k <= |s| + 1
    ensures k <= |s| ==> OccursAt(s, sep, k)
    ensures forall j :: i <= j < k ==> !OccursAt(s, sep, j)
    decreases |s| + 1 - i
  {
    if i == |s| + 1 || OccursAt(s, sep, i) then i else Find(s, sep, i + 1)
  }

  /** strings.Split with a separator that is not empty. */
  function Split(s: string, sep: string): (parts: seq<string>)
    requires sep != ""
    ensures parts != []
    decreases |s|
  {
    var k := Find(s, sep, 0);
    if k > |s| then [s] else [s[..k]] + Split(s[k + |sep|..], sep)
  }

  lemma CutAt(s: string, sep: string, k: nat)
    requires OccursAt(s, sep, k)
    ensures s == s[..k] + sep + s[k + |sep|..]
  {
  }

  /** Splitting loses nothing. */
  lemma {:induction false} JoinSplit(s: string, sep: string)
    requires sep != ""
    ensures Join(Split(s, sep), sep) == s
    decreases |s|
  {
    var k := Find(s, sep, 0);
    if k <= |s| {
      CutAt(s, sep, k);
      var parts := Split(s[k + |sep|..], sep);
      JoinSplit(s[k + |sep|..], sep);
      hide Find, OccursAt;
      assert Split(s, sep) == [s[..k]] + parts;
      assert Split(s, sep)[1..] == parts;
    }
  }

  /** Where the separator may first be met when an element stands in a list. */
  predicate Separable(values: seq<string>, sep: string) {
    && values != []
    && (forall i :: 0 <= i < |values| - 1 ==> Find(values[i] + sep, sep, 0) == |values[i]|)
    && Find(values[|values| - 1], sep, 0) > |values[|values| - 1]|
  }

  lemma FindInFront(a: string, sep: string, rest: string)
    requires sep != ""
    ensures Find(a + sep + rest, sep, 0) == Find(a + sep, sep, 0) <= |a|
  {
    var s, t := a + sep + rest, a + sep;
    assert OccursAt(t, sep, |a|);
    assert forall i: nat :: i <= |a| ==> (OccursAt(s, sep, i) <==> OccursAt(t, sep, i)) by {
      forall i: nat | i <= |a|
        ensures OccursAt(s, sep, i) <==> OccursAt(t, sep, i)
      {
        assert s[i..i + |sep|] == t[i..i + |sep|];
      }
    }
  }

  lemma SplitFirst(first: string, sep: string, rest: string)
    requires sep != ""
    ensures var s, k := first + sep + rest, Find(first + sep, sep, 0);
            && k <= |first| && Split(s, sep)[0] == s[..k] && |s[..k]| == k
            && (k == |first| ==> Split(s, sep) == [first] + Split(rest, sep))
  {
    FindInFront(first, sep, rest);
    var s, k := first + sep + rest, Find(first + sep, sep, 0);
    assert k == |first| ==> s[..k] == first && s[k + |sep|..] == rest;
  }

  /** The first element comes back exactly when its separator is the first one found. */
  lemma SplitMore(values: seq<string>, sep: string, joined: string)
    requires sep != "" && values != []
    ensures Split(values[0] + sep + joined, sep) == values
            <==> Find(values[0] + sep, sep, 0) == |values[0]| && Split(joined, sep) == values[1..]
  {
    SplitFirst(values[0], sep, joined);
    hide *;
    assert values == [values[0]] + values[1..];
    assert ([values[0]] + Split(joined, sep))[1..] == Split(joined, sep);
  }

  /** A list comes back from its joined form exactly when its separators are the ones found. */
  lemma {:induction false} SplitJoin(values: seq<string>, sep: string)
    requires sep != "" && values != []
    ensures Split(Join(values, sep), sep) == values <==> Separable(values, sep)
  {
    if |values| > 1 {
      hide Find, Split;
      var rest := values[1..];
      SplitMore(values, sep, Join(rest, sep));
      SplitJoin(rest, sep);
      if Find(values[0] + sep, sep, 0) == |values[0]| { SeparableRest(values, sep); }
    }
  }

  lemma SeparableRest(values: seq<string>, sep: string)
    requires |values| > 1 && Find(values[0] + sep, sep, 0) == |values[0]|
    ensures Separable(values, sep) <==> Separable(values[1..], sep)
  {
    assert forall i :: 0 <= i < |values| - 1 ==> values[1..][i] == values[i + 1];
    if Separable(values[1..], sep) {
      forall i | 0 <= i < |values| - 1
        ensures Find(values[i] + sep, sep, 0) == |values[i]|
      {
        if i > 0 { assert values[1..][i - 1] == values[i]; }
      }
    }
  }

  lemma {:induction false} JoinEmpty(values: seq<string>, sep: string)
    requires sep != ""
    ensures Join(values, sep) == "" <==> values == [] || values == [""]
  {
  }

  // ---------- integers ----------

  predicate IsDigit(c: char) {
    '0' <= c <= '9'
  }

  predicate AllDigits(s: string) {
    forall i :: 0 <= i < |s| ==> IsDigit(s[i])
  }

  function DigitChar(d: nat): char
    requires d < 10
  {
    '0' + d as char
  }

  function DigitValue(c: char): nat
    requires IsDigit(c)
  {
    (c - '0') as nat
  }

  function Digits(n: nat): (s: string)
    ensures s != "" && AllDigits(s)
  {
    if n < 10 then [DigitChar(n)] else Digits(n / 10) + [DigitChar(n % 10)]
  }

  function FormatInt(n: int): string {
    if n < 0 then "-" + Digits(-n) else Digits(n)
  }

  function Value(s: string): nat
    requires AllDigits(s)
  {
    if s == "" then 0 else 10 * Value(s[..|s| - 1]) + DigitValue(s[|s| - 1])
  }

  /** strconv.ParseInt(s, 10, 64): an optional sign, digits only, and the 64-bit range. */
  function ParseInt(s: string): Result<int> {
    if s == "" then Err
    else
      var signed := s[0] == '+' || s[0] == '-';
      var digits := if signed then s[1..] else s;
      if digits == "" || !AllDigits(digits) then Err
      else
        var v: int := if s[0] == '-' then -(Value(digits) as int) else Value(digits);
        if MIN_INT64 <= v <= MAX_INT64 then Ok(v) else Err
  }

  lemma {:induction false} ValueOfDigits(n: nat)
    ensures Value(Digits(n)) == n
  {
    if n >= 10 {
      ValueOfDigits(n / 10);
      var s := Digits(n);
      assert s[..|s| - 1] == Digits(n / 10);
    } else {
      assert Digits(n)[..0] == "";
    }
  }

  lemma ParseFormatted(n: int)
    requires MIN_INT64 <= n <= MAX_INT64
    ensures ParseInt(FormatInt(n)) == Ok(n)
  {
    ValueOfDigits(if n < 0 then -n else n);
    var s := FormatInt(n);
    if n < 0 { assert s[1..] == Digits(-n); }
  }

  function Zeros(n: nat): (s: string)
    ensures |s| == n && forall i :: 0 <= i < |s| ==> s[i] == '0'
  {
    seq(n, i => '0')
  }

  lemma {:induction false} DigitsOfValue(s: string) returns (zeros: nat)
    requires s != "" && AllDigits(s)
    ensures s == Zeros(zeros) + Digits(Value(s))
  {
    var front, c := s[..|s| - 1], s[|s| - 1];
    assert s == front + [c] && DigitChar(DigitValue(c)) == c;
    if front == "" {
      zeros := 0;
    } else {
      zeros := DigitsOfValue(front);
      if Value(front) == 0 {
        assert Digits(0) == ['0'] && front == Zeros(zeros + 1);
        zeros := zeros + 1;
      }
    }
  }

  lemma {:induction false} ValueOfPadded(zeros: nat, n: nat)
    ensures Value(Zeros(zeros) + Digits(n)) == n
    decreases n
  {
    var s := Zeros(zeros) + Digits(n);
    if n >= 10 {
      ValueOfPadded(zeros, n / 10);
      assert s[..|s| - 1] == Zeros(zeros) + Digits(n / 10);
    } else {
      ValueOfZeros(zeros);
      assert s[..|s| - 1] == Zeros(zeros);
    }
  }

  lemma {:induction false} ValueOfZeros(zeros: nat)
    ensures Value(Zeros(zeros)) == 0
  {
    if zeros > 0 {
      ValueOfZeros(zeros - 1);
      assert Zeros(zeros)[..zeros - 1] == Zeros(zeros - 1);
    }
  }

  /** Decimal digits of n behind any number of zeros. */
  ghost predicate Writes(s: string, n: nat) {
    exists zeros: nat :: s == Zeros(zeros) + Digits(n)
  }

  /** A string parses to v exactly if it is v in decimal, with a sign and leading zeros allowed, and v has
      64 bits. */
  lemma ParsesExactly(s: string, v: int)
    ensures ParseInt(s) == Ok(v)
       <==> && MIN_INT64 <= v <= MAX_INT64
            && ((v >= 0 && (Writes(s, v) || (s != "" && s[0] == '+' && Writes(s[1..], v))))
                || (v <= 0 && s != "" && s[0] == '-' && Writes(s[1..], -v)))
  {
    hide *;
    if ParseInt(s).Ok? { ParsedIsWritten(s); }
    if MIN_INT64 <= v <= MAX_INT64 {
      if v >= 0 && Writes(s, v) { WrittenParses(s, v); }
      if s != "" && s[0] == '+' && v >= 0 && Writes(s[1..], v) { SignedParses(s, v); }
      if s != "" && s[0] == '-' && v <= 0 && Writes(s[1..], -v) { SignedParses(s, -v); }
    }
  }

  lemma ParsedIsWritten(s: string)
    requires ParseInt(s).Ok?
    ensures s != "" && MIN_INT64 <= ParseInt(s).value <= MAX_INT64
    ensures var v := ParseInt(s).value;
            if s[0] == '-' then v <= 0 && Writes(s[1..], -v)
            else v >= 0 && Writes(if s[0] == '+' then s[1..] else s, v)
  {
    var digits := if s[0] == '+' || s[0] == '-' then s[1..] else s;
    var zeros := DigitsOfValue(digits);
    assert Writes(digits, Value(digits));
  }

  lemma WrittenValue(s: string, n: nat)
    requires Writes(s, n)
    ensures s != "" && AllDigits(s) && IsDigit(s[0]) && Value(s) == n
  {
    var zeros: nat :| s == Zeros(zeros) + Digits(n);
    ValueOfPadded(zeros, n);
  }

  lemma WrittenParses(s: string, n: nat)
    requires Writes(s, n) && n <= MAX_INT64
    ensures s != "" && ParseInt(s) == Ok(n) && s[0] != '+' && s[0] != '-'
  {
    WrittenValue(s, n);
    hide Value, Writes, AllDigits;
  }

  lemma SignedParses(s: string, n: nat)
    requires s != "" && Writes(s[1..], n)
    ensures s[0] == '+' && n <= MAX_INT64 ==> ParseInt(s) == Ok(n)
    ensures s[0] == '-' && MIN_INT64 <= -(n as int) ==> ParseInt(s) == Ok(-(n as int))
  {
    WrittenValue(s[1..], n);
    hide Value, Writes, AllDigits;
  }

  // ---------- the formatter and the parser ----------

  function Sum(values: seq<string>): nat {
    if values == [] then 0 else Sum(values[..|values| - 1]) + |values[|values| - 1]|
  }

  function Map(values: seq<int>): (r: seq<string>)
    ensures |r| == |values| && forall i :: 0 <= i < |r| ==> r[i] == FormatInt(values[i])
  {
    seq(|values|, i requires 0 <= i < |values| => FormatInt(values[i]))
  }

  lemma NothingMapped()
    ensures Map([]) == []
  {
  }

  lemma MapMore(values: seq<int>, i: nat)
    requires i < |values|
    ensures Map(values[..i + 1]) == Map(values[..i]) + [FormatInt(values[i])]
  {
  }

  /** The length the formatter adds up is the length it writes. */
  lemma {:induction false} JoinLength(values: seq<string>, sep: string)
    requires values != []
    ensures |Join(values, sep)| == Sum(values) + (|values| - 1) * |sep|
  {
    if |values| > 1 {
      JoinLength(values[1..], sep);
      SumFront(values);
    } else {
      assert values[..0] == [];
    }
  }

  lemma {:induction false} SumFront(values: seq<string>)
    requires values != []
    ensures Sum(values) == |values[0]| + Sum(values[1..])
  {
    if |values| == 1 {
      assert values[..0] == [] && values[1..] == [];
    } else {
      SumFront(values[..|values| - 1]);
      assert values[..|values| - 1][1..] == values[1..][..|values| - 2];
    }
  }

  lemma {:induction false} JoinMore(values: seq<string>, sep: string, more: string)
    requires values != []
    ensures Join(values + [more], sep) == Join(values, sep) + sep + more
  {
    assert (values + [more])[1..] == values[1..] + [more];
    if |values| > 1 {
      JoinMore(values[1..], sep, more);
      assert values[0] + sep + (Join(values[1..], sep) + sep + more)
             == values[0] + sep + Join(values[1..], sep) + sep + more;
    }
  }

  class FieldFormatter {
    const maxLen: nat
    const sep: string

    constructor (maxLen: int, sep: string)
      ensures this.maxLen >= 1 && this.sep != ""
      ensures this.maxLen == (if maxLen < 1 then DEFAULT_MAX_LEN else maxLen)
              && this.sep == (if sep == "" then "," else sep)
    {
      this.maxLen := if maxLen < 1 then DEFAULT_MAX_LEN else maxLen;
      this.sep := if sep == "" then "," else sep;
    }

    method FormatStringList(values: seq<string>) returns (r: Result<string>)
      ensures r == if |Join(values, sep)| > maxLen then Err else Ok(Join(values, sep))
    {
      if |values| == 0 { return Ok(""); }
      var valuesLen := (|values| - 1) * |sep|;
      for i := 0 to |values|
        invariant valuesLen == (|values| - 1) * |sep| + Sum(values[..i])
      {
        assert values[..i + 1][..i] == values[..i];
        valuesLen := valuesLen + |values[i]|;
      }
      assert values[..|values|] == values;
      JoinLength(values, sep);
      if valuesLen > maxLen { return Err; }
      var buf := "";
      for i := 0 to |values|
        invariant buf == Join(values[..i], sep)
      {
        assert values[..i + 1] == values[..i] + [values[i]];
        if i > 0 {
          JoinMore(values[..i], sep, values[i]);
          buf := buf + sep;
        }
        buf := buf + values[i];
      }
      return Ok(buf);
    }

    method FormatInt64List(values: seq<int>) returns (r: Result<string>)
      ensures r == if |values| * MAX_INT64_DIGITS > maxLen then Err else Ok(Join(Map(values), sep))
    {
      hide FormatInt, Map;
      if |values| == 0 {
        NothingMapped();
        return Ok("");
      }
      if |values| * MAX_INT64_DIGITS > maxLen { return Err; }
      var buf := "";
      NothingMapped();
      for i := 0 to |values|
        invariant buf == Join(Map(values[..i]), sep)
      {
        MapMore(values, i);
        if i > 0 {
          JoinMore(Map(values[..i]), sep, FormatInt(values[i]));
          buf := buf + sep;
        }
        buf := buf + FormatInt(values[i]);
      }
      assert values[..|values|] == values;
      return Ok(buf);
    }
  }

  function ParseStringList(value: string, sep: string): seq<string>
    requires sep != ""
  {
    if value == "" then [] else Split(value, sep)
  }

  function ParseAll(parts: seq<string>): Result<seq<int>> {
    if parts == [] then Ok([])
    else
      var last := ParseInt(parts[|parts| - 1]);
      var front := ParseAll(parts[..|parts| - 1]);
      if front.Err? || last.Err? then Err else Ok(front.value + [last.value])
  }

  lemma {:induction false} ParseAllFails(parts: seq<string>, i: nat)
    requires i < |parts| && ParseInt(parts[i]).Err?
    ensures ParseAll(parts).Err?
  {
    if i < |parts| - 1 { ParseAllFails(parts[..|parts| - 1], i); }
  }

  /** All parts parse, each to its number, or the whole does not. */
  lemma {:induction false} ParsesEach(parts: seq<string>, values: seq<int>)
    ensures ParseAll(parts) == Ok(values)
       <==> |values| == |parts| && forall i :: 0 <= i < |parts| ==> ParseInt(parts[i]) == Ok(values[i])
  {
    hide ParseInt;
    if parts != [] {
      var front := ParseAll(parts[..|parts| - 1]);
      if front.Ok? { ParsesEach(parts[..|parts| - 1], front.value); }
      if values != [] {
        ParsesEach(parts[..|parts| - 1], values[..|values| - 1]);
        assert values == values[..|values| - 1] + [values[|values| - 1]];
      }
    }
  }

  method ParseInt64List(value: string, sep: string) returns (r: Result<seq<int>>)
    requires sep != ""
    ensures r == if value == "" then Ok([]) else ParseAll(Split(value, sep))
  {
    if value == "" { return Ok([]); }
    var parts := Split(value, sep);
    var parsed: seq<int> := [];
    for i := 0 to |parts|
      invariant ParseAll(parts[..i]) == Ok(parsed)
    {
      var v := ParseInt(parts[i]);
      if v.Err? {
        ParseAllFails(parts, i);
        return Err;
      }
      assert parts[..i + 1][..i] == parts[..i];
      parsed := parsed + [v.value];
    }
    assert parts[..|parts|] == parts;
    return Ok(parsed);
  }

  // ---------- round trips ----------

  /** Formatting a parsed list gives the string back, whatever the string and the separator. */
  lemma FormatParsed(value: string, sep: string)
    requires sep != ""
    ensures Join(ParseStringList(value, sep), sep) == value
  {
    if value != "" { JoinSplit(value, sep); }
  }

  /** Parsing a formatted list gives the list back exactly when it is empty, or its separators are
      found where they were put and it is not the one empty string. */
  lemma ParseFormattedList(values: seq<string>, sep: string)
    requires sep != ""
    ensures ParseStringList(Join(values, sep), sep) == values <==>
            values == [] || (Separable(values, sep) && values != [""])
  {
    JoinEmpty(values, sep);
    if values != [] { SplitJoin(values, sep); }
  }

  /** One list that does not come back: its element holds the separator. */
  lemma CommaInElement()
    ensures ParseStringList(Join(["a,b"], ","), ",") == ["a", "b"]
  {
    OccurrenceStarts("a,b", ",", 0);
    assert "a,b"[1..2] == ",";
    assert Find("a,b", ",", 0) == 1;
    OccurrenceStarts("b", ",", 0);
    assert Find("b", ",", 0) == 2;
    assert "a,b"[2..] == "b" && "a,b"[..1] == "a";
    assert Split("b", ",") == ["b"];
  }

  /** A separator that cannot start inside a number. */
  predicate Foreign(sep: string) {
    sep != "" && !IsDigit(sep[0]) && sep[0] != '-'
  }

  lemma NumbersSeparable(values: seq<int>, sep: string)
    requires values != [] && Foreign(sep)
    ensures Separable(Map(values), sep)
  {
    forall i | 0 <= i < |values|
      ensures Find(Map(values)[i] + sep, sep, 0) == |Map(values)[i]| && Find(Map(values)[i], sep, 0) > |Map(values)[i]|
    {
      NumberMeetsNoSeparator(values[i], sep);
    }
  }

  lemma OccurrenceStarts(s: string, sep: string, i: nat)
    requires sep != "" && i < |s|
    ensures OccursAt(s, sep, i) ==> s[i] == sep[0]
  {
    assert i + |sep| <= |s| ==> s[i..i + |sep|][0] == s[i];
  }

  lemma NumberMeetsNoSeparator(n: int, sep: string)
    requires Foreign(sep)
    ensures var s := FormatInt(n); Find(s + sep, sep, 0) == |s| && Find(s, sep, 0) > |s|
  {
    var s := FormatInt(n);
    assert forall i :: 0 <= i < |s| ==> s[i] != sep[0];
    assert OccursAt(s + sep, sep, |s|);
    forall i: nat | i < |s|
      ensures !OccursAt(s + sep, sep, i) && !OccursAt(s, sep, i)
    {
      OccurrenceStarts(s, sep, i);
      OccurrenceStarts(s + sep, sep, i);
      assert (s + sep)[i] == s[i] != sep[0];
    }
  }

  lemma {:induction false} ParseAllFormatted(values: seq<int>)
    requires forall i :: 0 <= i < |values| ==> MIN_INT64 <= values[i] <= MAX_INT64
    ensures ParseAll(Map(values)) == Ok(values)
  {
    hide ParseInt, FormatInt, Map;
    if values != [] {
      var front, last := values[..|values| - 1], values[|values| - 1];
      ParseAllFormatted(front);
      ParseFormatted(last);
      MapMore(values, |values| - 1);
      assert values[..|values|] == values && front + [last] == values;
      assert Map(values)[..|values| - 1] == Map(front) && Map(values)[|values| - 1] == FormatInt(last);
    }
  }

  /** A formatted list of 64-bit integers parses to itself, with the default comma and with any other
      separator that starts with neither a digit nor a minus. */
  lemma ParseFormattedIntegers(values: seq<int>, sep: string)
    requires Foreign(sep) && forall i :: 0 <= i < |values| ==> MIN_INT64 <= values[i] <= MAX_INT64
    ensures Foreign(",")
    ensures values == [] ==> Join(Map(values), sep) == ""
    ensures values != [] ==> Join(Map(values), sep) != "" && ParseAll(Split(Join(Map(values), sep), sep)) == Ok(values)
  {
    if values != [] {
      NumbersSeparable(values, sep);
      SplitJoin(Map(values), sep);
      ParseAllFormatted(values);
      JoinEmpty(Map(values), sep);
    }
  }
}
