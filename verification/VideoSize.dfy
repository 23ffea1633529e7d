/** The hand-written parsers for the video size and frame rate overrides. */
module VideoSize {
  import opened Options

  const MAX_DIM: nat := 8192
  const MAX_FPS: nat := 240

  predicate IsDigit(c: char) {
    '0' <= c <= '9'
  }

  /** At least one digit and nothing else. */
  predicate IsNumber(s: string) {
    s != "" && AllDigits(s)
  }

  predicate AllDigits(s: string) {
    forall i | 0 <= i < |s| :: IsDigit(s[i])
  }

  function Value(s: string): nat
    requires AllDigits(s)
  {
    if s == "" then 0
    else
      var last := s[|s| - 1];
      assert IsDigit(last);
      10 * Value(s[..|s| - 1]) + (last as int - '0' as int)
  }

  /** The texts that mean `w` by `h`: two numbers with an x between them, each in range. */
  ghost predicate IsSize(s: string, w: nat, h: nat) {
    && 1 <= w <= MAX_DIM && 1 <= h <= MAX_DIM
    && exists k: nat :: SplitAt(s, k) && Value(s[..k]) == w && Value(s[k + 1..]) == h
  }

  predicate SplitAt(s: string, k: nat) {
    && 0 < k && k + 1 < |s| && (s[k] == 'x' || s[k] == 'X')
    && (forall i | 0 <= i < k :: IsDigit(s[i]))
    && (forall i | k < i < |s| :: IsDigit(s[i]))
  }

  /** strtoul() from a digit on: all the digits there are, clamped to the target's largest
      unsigned long. */
  method StrToUl(s: string, from: nat, ulongMax: nat) returns (v: nat, end: nat)
    requires from < |s| && IsDigit(s[from])
    ensures from < end <= |s| && IsNumber(s[from..end])
    ensures end < |s| ==> !IsDigit(s[end])
    ensures v == if Value(s[from..end]) > ulongMax then ulongMax else Value(s[from..end])
  {
    v, end := 0, from;
    while end < |s| && IsDigit(s[end])
      invariant from <= end <= |s|
      invariant forall i | from <= i < end :: IsDigit(s[i])
      invariant v == if Value(s[from..end]) > ulongMax then ulongMax else Value(s[from..end])
    {
      assert s[from..end + 1][..end - from] == s[from..end];
      v := 10 * v + (s[end] as int - '0' as int);
      if v > ulongMax {
        v := ulongMax;
      }
      end := end + 1;
    }
  }

  /** A text can only be split after its leading digits. */
  lemma OnlySplit(s: string, cut: nat)
    requires cut <= |s| && (forall i | 0 <= i < cut :: IsDigit(s[i])) && (cut < |s| ==> !IsDigit(s[cut]))
    ensures forall w: nat, h: nat :: IsSize(s, w, h) <==>
              && 1 <= w <= MAX_DIM && 1 <= h <= MAX_DIM
              && SplitAt(s, cut) && Value(s[..cut]) == w && Value(s[cut + 1..]) == h
  {
    hide Value;
    assert forall k: nat | SplitAt(s, k) :: k == cut;
  }

  /** Accepts exactly the texts that mean a size, and returns that size, whatever the width
      of an unsigned long. */
  method ParseSize(s: string, ulongMax: nat) returns (r: Option<(nat, nat)>)
    requires ulongMax > MAX_DIM
    ensures forall w: nat, h: nat :: IsSize(s, w, h) <==> r == Some((w, h))
  {
    hide Value, IsSize;
    var w, h, end := 0, 0, 0;
    if s != "" && IsDigit(s[0]) {
      w, end := StrToUl(s, 0, ulongMax);
      assert forall i | 0 <= i < end :: s[i] == s[0..end][i];
      assert s[..end] == s[0..end];
    }
    ghost var cut := end;
    OnlySplit(s, cut);
    if w != 0 && end < |s| && (s[end] == 'x' || s[end] == 'X') && end + 1 < |s| && IsDigit(s[end + 1]) {
      h, end := StrToUl(s, end + 1, ulongMax);
      assert forall i | cut < i < end :: s[i] == s[cut + 1..end][i - cut - 1];
      assert end == |s| ==> SplitAt(s, cut) && s[cut + 1..end] == s[cut + 1..];
    }
    if w == 0 || h == 0 || end != |s| || w > MAX_DIM || h > MAX_DIM {
      r := None;
    } else {
      r := Some((w, h));
    }
  }

  /** The same for the frame rate. */
  method ParseFps(s: string, ulongMax: nat) returns (r: Option<nat>)
    requires ulongMax > MAX_FPS
    ensures forall f: nat :: r == Some(f) <==> IsNumber(s) && Value(s) == f && 1 <= f <= MAX_FPS
  {
    var f, end := 0, 0;
    if s != "" && IsDigit(s[0]) {
      f, end := StrToUl(s, 0, ulongMax);
    }
    assert end == |s| ==> s[0..end] == s;
    if f == 0 || end != |s| || f > MAX_FPS {
      return None;
    }
    return Some(f);
  }

  function Decimal(n: nat): (s: string)
    ensures IsNumber(s)
    ensures Value(s) == n
  {
    var last := [('0' as int + n % 10) as char];
    if n < 10 then
      assert last[..0] == "";
      last
    else
      var s := Decimal(n / 10) + last;
      assert s[..|s| - 1] == Decimal(n / 10);
      s
  }

  /** Parsing the printed form of any legal size returns that size. */
  lemma PrintedSizesParse(w: nat, h: nat)
    requires 1 <= w <= MAX_DIM && 1 <= h <= MAX_DIM
    ensures IsSize(Decimal(w) + "x" + Decimal(h), w, h)
  {
    var s, k := Decimal(w) + "x" + Decimal(h), |Decimal(w)|;
    assert s[..k] == Decimal(w) && s[k + 1..] == Decimal(h);
    assert SplitAt(s, k);
  }
}
