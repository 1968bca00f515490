/** The scheduler's job ids: `analysis-<process>-<interval>m`, printed when a job is registered
    and read back with a greedy pattern when the registered set is compared with the wanted one. */
module JobIds {
  import opened Wrappers

  const PREFIX := "analysis-"

  type JobKey = (string, int)

  /** The id a job is stored under in the job table. */
  datatype JobId = JobId(text: string)

  // ---------------------------------------------------------------- decimal numerals

  predicate IsDigit(c: char) {
    '0' <= c <= '9'
  }

  predicate AllDigits(s: string) {
    forall i :: 0 <= i < |s| ==> IsDigit(s[i])
  }

  function DigitChar(d: nat): (c: char)
    requires d < 10
    ensures IsDigit(c) && c as int == '0' as int + d
  {
    (d + '0' as int) as char
  }

  function Numeral(n: nat): (s: string)
    ensures s != "" && AllDigits(s)
  {
    if n < 10 then [DigitChar(n)] else Numeral(n / 10) + [DigitChar(n % 10)]
  }

  /** `str(n)` */
  function IntText(n: int): string {
    if n < 0 then "-" + Numeral(-n) else Numeral(n)
  }

  function Value(s: string): nat
    requires AllDigits(s)
  {
    if s == "" then 0 else 10 * Value(s[..|s| - 1]) + (s[|s| - 1] as int - '0' as int)
  }

  lemma {:induction false} ValueOfNumeral(n: nat)
    ensures Value(Numeral(n)) == n
  {
    var s := Numeral(n);
    if n >= 10 {
      ValueOfNumeral(n / 10);
      assert s[..|s| - 1] == Numeral(n / 10);
    } else {
      assert s[..|s| - 1] == "";
    }
  }

  // ---------------------------------------------------------------- printing and reading ids

  function Print(k: JobKey): JobId {
    JobId(PREFIX + (k.0 + "-" + IntText(k.1)) + "m")
  }

  /** The longest process `mid[..j]` with `j <= k` that the pattern accepts: non-empty, on one line,
      followed by a dash and nothing but digits. */
  function SplitAt(mid: string, k: int): (r: Option<nat>)
    requires k < |mid|
    ensures r.Some? ==> r.value < |mid| && AllDigits(mid[r.value + 1..])
    decreases k
  {
    if k < 1 then None
    else if mid[k] == '-' && k + 1 < |mid| && AllDigits(mid[k + 1..]) && '\n' !in mid[..k] then Some(k)
    else SplitAt(mid, k - 1)
  }

  /** The pattern's `$` also matches before a final line feed. */
  function DropFinalNewline(s: string): string {
    if s != "" && s[|s| - 1] == '\n' then s[..|s| - 1] else s
  }

  /** What stands between `prefix` and the final "m". */
  function Middle(prefix: string, s: string): Option<string> {
    if |s| < |prefix| + 1 || s[..|prefix|] != prefix || s[|s| - 1] != 'm' then None
    else Some(s[|prefix|..|s| - 1])
  }

  function ReadKey(mid: string): Option<JobKey> {
    match SplitAt(mid, |mid| - 1)
    case None => None
    case Some(k) => Some((mid[..k], Value(mid[k + 1..])))
  }

  function Parse(id: JobId): Option<JobKey> {
    match Middle(PREFIX, DropFinalNewline(id.text))
    case None => None
    case Some(mid) => ReadKey(mid)
  }

  /** Keys the pattern can give back. */
  predicate Readable(k: JobKey) {
    k.0 != "" && '\n' !in k.0 && k.1 >= 0
  }

  /** Past the last dash there are only digits, so a greedy match stops there or not at all. */
  lemma {:induction false} SplitAtLastDash(p: string, digits: string, k: nat)
    requires digits != "" && AllDigits(digits) && |p| <= k < |p| + 1 + |digits|
    ensures SplitAt(p + "-" + digits, k) == if p != "" && '\n' !in p then Some(|p|) else None
    decreases k
  {
    var mid := p + "-" + digits;
    if k > |p| {
      assert mid[k] == digits[k - |p| - 1];
      SplitAtLastDash(p, digits, k - 1);
    } else {
      assert mid[..|p|] == p && mid[|p| + 1..] == digits;
      if '\n' in p { SplitStopsAtNewline(p, digits, k - 1); }
    }
  }

  /** Left of the last dash every candidate is followed by that dash, which is no digit. */
  lemma {:induction false} SplitStopsAtNewline(p: string, digits: string, k: int)
    requires k < |p|
    ensures SplitAt(p + "-" + digits, k) == None
    decreases k
  {
    if k >= 1 {
      var mid := p + "-" + digits;
      assert mid[k + 1..][|p| - k - 1] == '-';
      SplitStopsAtNewline(p, digits, k - 1);
    }
  }

  lemma MiddleOfWrapped(prefix: string, mid: string)
    ensures Middle(prefix, DropFinalNewline(prefix + mid + "m")) == Some(mid)
  {
    var id := prefix + mid + "m";
    assert DropFinalNewline(id) == id;
    assert id[..|prefix|] == prefix && id[|prefix|..|id| - 1] == mid;
  }

  lemma ReadKeyOf(p: string, digits: string)
    requires digits != "" && AllDigits(digits)
    ensures ReadKey(p + "-" + digits) == if p != "" && '\n' !in p then Some((p, Value(digits))) else None
  {
    hide SplitAt, Value;
    var mid := p + "-" + digits;
    assert mid[..|p|] == p && mid[|p| + 1..] == digits;
    var split := SplitAt(mid, |mid| - 1);
    assert split == if p != "" && '\n' !in p then Some(|p|) else None by {
      SplitAtLastDash(p, digits, |mid| - 1);
    }
    assert split.Some? ==> ReadKey(mid) == Some((mid[..|p|], Value(mid[|p| + 1..])));
  }

  lemma ParseOfPrinted(p: string, digits: string)
    requires digits != "" && AllDigits(digits)
    ensures Parse(JobId(PREFIX + (p + "-" + digits) + "m")) ==
      if p != "" && '\n' !in p then Some((p, Value(digits))) else None
  {
    MiddleOfWrapped(PREFIX, p + "-" + digits);
    ReadKeyOf(p, digits);
  }

  /** A printed id reads back as the key it was printed for exactly when the process is a non-empty
      single line and the interval is not negative; dashes and text like "-5m" are harmless. */
  lemma RoundTripIff(k: JobKey)
    ensures Parse(Print(k)) == Some(k) <==> Readable(k)
  {
    if k.1 >= 0 {
      ParseOfPrinted(k.0, Numeral(k.1));
      ValueOfNumeral(k.1);
    } else {
      var p := k.0 + "-";
      assert k.0 + "-" + IntText(k.1) == p + "-" + Numeral(-k.1);
      ParseOfPrinted(p, Numeral(-k.1));
      ValueOfNumeral(-k.1);
    }
  }

  /** Whatever is read back from a printed id prints as that id again, and is readable itself. */
  lemma PrintOfParsed(k: JobKey)
    ensures var r := Parse(Print(k)); r.Some? ==> Print(r.value) == Print(k) && Readable(r.value)
  {
    if k.1 >= 0 {
      ParseOfPrinted(k.0, Numeral(k.1));
      ValueOfNumeral(k.1);
    } else {
      var p := k.0 + "-";
      assert k.0 + "-" + IntText(k.1) == p + "-" + Numeral(-k.1);
      ParseOfPrinted(p, Numeral(-k.1));
      ValueOfNumeral(-k.1);
    }
  }

  lemma NoDashAfter(p: string, d: string, k: nat)
    requires AllDigits(d) && k < |p| + 1 + |d| && (p + "-" + d)[k] == '-'
    ensures k <= |p|
  {
  }

  lemma LastDashUnique(p: string, d: string, q: string, e: string)
    requires AllDigits(d) && AllDigits(e) && p + "-" + d == q + "-" + e
    ensures p == q && d == e
  {
    var s := p + "-" + d;
    assert s[|p|] == '-' && s[|q|] == '-';
    NoDashAfter(p, d, |q|);
    NoDashAfter(q, e, |p|);
    assert p == s[..|p|] && q == s[..|q|] && d == s[|p| + 1..] && e == s[|q| + 1..];
  }

  /** `k` has the negative of `l`'s interval and `l` took up the minus sign as a trailing dash. */
  predicate SignTaken(k: JobKey, l: JobKey) {
    k.1 < 0 && l == (k.0 + "-", -k.1)
  }

  /** What stands before the dash and the digits. */
  function Stem(k: JobKey): string {
    if k.1 < 0 then k.0 + "-" else k.0
  }

  function Size(n: int): nat {
    if n < 0 then -n else n
  }

  lemma PrintedParts(k: JobKey)
    ensures Print(k).text == PREFIX + (Stem(k) + "-" + Numeral(Size(k.1))) + "m"
  {
    hide Numeral;
    assert k.1 < 0 ==> k.0 + "-" + ("-" + Numeral(-k.1)) == k.0 + "-" + "-" + Numeral(-k.1);
  }

  lemma WrappedDiffer(x: string, y: string)
    requires PREFIX + x + "m" == PREFIX + y + "m"
    ensures x == y
  {
    var s, t := PREFIX + x + "m", PREFIX + y + "m";
    assert x == s[|PREFIX|..|s| - 1] && y == t[|PREFIX|..|t| - 1];
  }

  lemma SameStem(k: JobKey, l: JobKey)
    requires Print(k) == Print(l)
    ensures Stem(k) == Stem(l) && Size(k.1) == Size(l.1)
  {
    hide Print, Numeral, Stem, Size, Value;
    PrintedParts(k);
    PrintedParts(l);
    WrappedDiffer(Stem(k) + "-" + Numeral(Size(k.1)), Stem(l) + "-" + Numeral(Size(l.1)));
    LastDashUnique(Stem(k), Numeral(Size(k.1)), Stem(l), Numeral(Size(l.1)));
    ValueOfNumeral(Size(k.1));
    ValueOfNumeral(Size(l.1));
  }

  lemma SameStemIff(k: JobKey, l: JobKey)
    ensures Stem(k) == Stem(l) && Size(k.1) == Size(l.1) <==> k == l || SignTaken(k, l) || SignTaken(l, k)
  {
    if k.1 < 0 && l.1 < 0 && Stem(k) == Stem(l) {
      assert k.0 == Stem(k)[..|k.0|] && l.0 == Stem(l)[..|l.0|];
    }
  }

  /** Two keys share an id only if they are one key, or a negative interval's sign is read as part
      of the other's process name. */
  lemma SameIdIff(k: JobKey, l: JobKey)
    ensures Print(k) == Print(l) <==> k == l || SignTaken(k, l) || SignTaken(l, k)
  {
    hide Print, Numeral, Stem, Size, SignTaken;
    SameStemIff(k, l);
    PrintedParts(k);
    PrintedParts(l);
    if Print(k) == Print(l) { SameStem(k, l); }
  }
}
