/** The power chart: a sliding window of the last five samples and a running count of all
    samples ever shown, from which the x-axis labels (one every 30 seconds) are derived. */
module GraphStats {

  const WindowSize: nat := 5
  const SecondsPerSample: int := 30

  /** `s.slice(-n)` for a positive n: the last n elements, or all of them when there are fewer. */
  function LastN(s: seq<int>, n: nat): (r: seq<int>)
    requires n > 0
    ensures |r| == if |s| <= n then |s| else n
    ensures forall i :: 0 <= i < |r| ==> r[i] == s[|s| - |r| + i]
    ensures s != [] ==> r != [] && r[|r| - 1] == s[|s| - 1]
  {
    if |s| <= n then s else s[|s| - n..]
  }

  /** Cutting the window before a batch arrives loses nothing: the window after any series of
      batches is the last samples of everything ever received. */
  lemma {:induction false} WindowOfWindow(a: seq<int>, b: seq<int>, n: nat)
    requires n > 0
    ensures LastN(LastN(a, n) + b, n) == LastN(a + b, n)
  {
    var w := LastN(a, n) + b;
    var l := LastN(w, n);
    var r := LastN(a + b, n);
    assert |l| == |r|;
    forall i | 0 <= i < |l|
      ensures l[i] == r[i]
    {
      var k := |w| - |l| + i;
      if k >= |LastN(a, n)| {
        assert w[k] == b[k - |LastN(a, n)|];
      } else {
        assert w[k] == a[|a| - |LastN(a, n)| + k];
      }
    }
  }

  class PowerChart {
    var data: seq<int>
    var labelCount: int

    /** The window never exceeds five samples and never holds more samples than were counted. */
    ghost predicate Valid()
      reads this
    {
      |data| <= WindowSize && labelCount >= |data|
    }

    constructor ()
      ensures Valid() && data == [] && labelCount == 0
    {
      data, labelCount := [], 0;
    }

    /** The effect on `[power]`: a non-empty batch is appended and the window cut to its last
        five samples, and the count grows by the batch size; an empty batch changes nothing. */
    method OnPower(power: seq<int>)
      requires Valid()
      modifies this
      ensures Valid()
      ensures power == [] ==> data == old(data) && labelCount == old(labelCount)
      ensures power != [] ==> data == LastN(old(data) + power, WindowSize)
      ensures power != [] ==> labelCount == old(labelCount) + |power|
    {
      if |power| > 0 {
        data := LastN(data + power, WindowSize);
        labelCount := labelCount + |power|;
      }
    }
  }

  /** `generateLabels`: the i-th point is labelled with its overall sample number times 30,
      followed by "s". */
  function Labels(labelCount: int, data: seq<int>): (r: seq<string>)
    ensures |r| == |data|
    ensures forall i :: 0 <= i < |r| ==> r[i] == IntString((labelCount - |data| + i) * SecondsPerSample) + "s"
  {
    seq(|data|, i requires 0 <= i < |data| => IntString((labelCount - |data| + i) * SecondsPerSample) + "s")
  }

  /** Under the chart's invariant every label reads back as a non-negative number of seconds,
      the i-th one 30 seconds after the (i-1)-th. */
  lemma {:induction false} LabelsReadBack(labelCount: int, data: seq<int>, i: nat)
    requires labelCount >= |data| && i < |data|
    ensures ParseLabel(Labels(labelCount, data)[i]) == (labelCount - |data| + i) * SecondsPerSample >= 0
  {
    var secs := (labelCount - |data| + i) * SecondsPerSample;
    var l := Labels(labelCount, data)[i];
    assert l[..|l| - 1] == IntString(secs);
    IntStringRoundTrip(secs);
  }

  /** The digit character of a value below 10. */
  function DigitChar(d: nat): (c: char)
    requires d < 10
    ensures '0' <= c <= '9' && (c as int) - ('0' as int) == d
  {
    (('0' as int) + d) as char
  }

  /** `String(n)` for a natural number: its decimal digits, most significant first. */
  function DecimalString(n: nat): (s: string)
    ensures |s| >= 1
    ensures forall i :: 0 <= i < |s| ==> '0' <= s[i] <= '9'
  {
    if n < 10 then [DigitChar(n)] else DecimalString(n / 10) + [DigitChar(n % 10)]
  }

  /** `String(x)` for an integer: a minus sign before the digits of a negative number. */
  function IntString(x: int): (s: string)
    ensures |s| >= 1
    ensures s[0] == '-' <==> x < 0
  {
    if x < 0 then "-" + DecimalString(-x) else DecimalString(x)
  }

  /** The value of a string of decimal digits. */
  function ParseDecimal(s: string): nat
  {
    if s == [] then 0
    else
      var d := (s[|s| - 1] as int) - ('0' as int);
      ParseDecimal(s[..|s| - 1]) * 10 + (if 0 <= d < 10 then d else 0)
  }

  /** The value of an optionally signed decimal string. */
  function ParseInt(s: string): int
  {
    if s != [] && s[0] == '-' then -(ParseDecimal(s[1..]) as int) else ParseDecimal(s)
  }

  /** The seconds of a label: the number before its trailing unit letter. */
  function ParseLabel(l: string): int
  {
    if l == [] then 0 else ParseInt(l[..|l| - 1])
  }

  lemma {:induction false} DecimalStringRoundTrip(n: nat)
    ensures ParseDecimal(DecimalString(n)) == n
  {
    if n >= 10 {
      var s := DecimalString(n);
      DecimalStringRoundTrip(n / 10);
      assert s[..|s| - 1] == DecimalString(n / 10);
    }
  }

  /** Rendering an integer and reading it back gives the integer. */
  lemma {:induction false} IntStringRoundTrip(x: int)
    ensures ParseInt(IntString(x)) == x
  {
    if x < 0 {
      assert IntString(x)[1..] == DecimalString(-x);
      DecimalStringRoundTrip(-x);
    } else {
      DecimalStringRoundTrip(x);
    }
  }
}
