/**
 * File names of the cache purge audit. The store works on names as structured values; this module
 * shows that their spelling on disk keeps different names apart.
 */
module AuditNames {
  import T = Text

  /** `{timestamp:020}-{pid:010}-{attempt:04}` */
  datatype RecordId = RecordId(timestamp: int, pid: nat, attempt: nat)

  datatype FileName = IntentFile(id: RecordId) | RecordFile(id: RecordId) | Temporary(final: FileName) {
    predicate IsFinal() { !Temporary? }
  }

  function Zeros(n: nat): string { seq(n, i => '0') }

  function Padded(n: nat, width: nat): string {
    var digits := T.Decimal(n);
    Zeros(if |digits| < width then width - |digits| else 0) + digits
  }

  function Signed(n: int, width: nat): string {
    if n < 0 then "-" + Padded(-n, if width == 0 then 0 else width - 1) else Padded(n, width)
  }

  function IdText(id: RecordId): string {
    Signed(id.timestamp, 20) + "-" + Padded(id.pid, 10) + "-" + Padded(id.attempt, 4)
  }

  function FileText(name: FileName): string {
    match name
    case IntentFile(id) => "intent-" + IdText(id) + ".json"
    case RecordFile(id) => IdText(id) + ".json"
    case Temporary(final) => "." + FileText(final) + ".tmp"
  }

  // --- numbers ----------------------------------------------------------------------------------------

  predicate IsDigit(c: char) { '0' <= c <= '9' }

  ghost predicate AllDigits(s: string) { forall i :: 0 <= i < |s| ==> IsDigit(s[i]) }

  function Value(s: string): nat
    requires AllDigits(s)
  {
    if s == "" then 0
    else
      assert IsDigit(s[|s| - 1]);
      10 * Value(s[..|s| - 1]) + (s[|s| - 1] as int - '0' as int)
  }

  lemma {:induction false} DecimalValue(n: nat)
    ensures AllDigits(T.Decimal(n)) && T.Decimal(n) != "" && Value(T.Decimal(n)) == n
  {
    var s := T.Decimal(n);
    var digit := "0123456789"[n % 10];
    assert digit as int - '0' as int == n % 10;
    if n >= 10 {
      DecimalValue(n / 10);
    }
    assert s[..|s| - 1] == if n < 10 then "" else T.Decimal(n / 10);
  }

  lemma {:induction false} ZerosValue(k: nat, s: string)
    requires AllDigits(s)
    ensures AllDigits(Zeros(k) + s) && Value(Zeros(k) + s) == Value(s)
  {
    if s == "" {
      assert Zeros(k) + s == Zeros(k);
      if k > 0 {
        ZerosValue(k - 1, "");
        assert Zeros(k)[..k - 1] == Zeros(k - 1) + "";
      }
    } else {
      ZerosValue(k, s[..|s| - 1]);
      assert (Zeros(k) + s)[..k + |s| - 1] == Zeros(k) + s[..|s| - 1];
    }
  }

  /** A padded number can be read back. */
  lemma PaddedValue(n: nat, width: nat)
    ensures AllDigits(Padded(n, width)) && Padded(n, width) != "" && Value(Padded(n, width)) == n
  {
    hide T.Decimal, Value;
    DecimalValue(n);
    var digits := T.Decimal(n);
    ZerosValue(if |digits| < width then width - |digits| else 0, digits);
  }

  // --- ids -----------------------------------------------------------------------------------------------

  lemma NoLaterDash(a: string, b: string, k: nat)
    requires AllDigits(b) && |a| < k <= |a| + |b|
    ensures (a + "-" + b)[k] != '-'
  {
  }

  /** Digits after the last dash can be split off. */
  lemma SplitLast(a: string, b: string, x: string, y: string)
    requires AllDigits(b) && AllDigits(y) && a + "-" + b == x + "-" + y
    ensures a == x && b == y
  {
    var s := a + "-" + b;
    assert s[|a|] == '-' && s[|x|] == '-';
    if |a| < |x| {
      NoLaterDash(a, b, |x|);
    } else if |x| < |a| {
      NoLaterDash(x, y, |a|);
    }
    assert s[..|a|] == a && s[..|x|] == x;
    assert s[|a| + 1..] == b && s[|x| + 1..] == y;
  }

  lemma SignShows(n: int, width: nat)
    ensures Signed(n, width) != "" && (Signed(n, width)[0] == '-' <==> n < 0)
            && (n >= 0 ==> IsDigit(Signed(n, width)[0]))
  {
    PaddedValue(if n < 0 then -n else n, if n < 0 then (if width == 0 then 0 else width - 1) else width);
    if n >= 0 {
      assert IsDigit(Padded(n, width)[0]);
    }
  }

  lemma SignedInjective(m: int, n: int, width: nat)
    requires Signed(m, width) == Signed(n, width)
    ensures m == n
  {
    SignShows(m, width);
    SignShows(n, width);
    hide Padded, Value, AllDigits;
    if m < 0 {
      var w := if width == 0 then 0 else width - 1;
      PaddedValue(-m, w);
      PaddedValue(-n, w);
      assert ("-" + Padded(-m, w))[1..] == Padded(-m, w);
      assert ("-" + Padded(-n, w))[1..] == Padded(-n, w);
    } else {
      PaddedValue(m, width);
      PaddedValue(n, width);
    }
  }

  lemma IdTextInjective(a: RecordId, b: RecordId)
    requires IdText(a) == IdText(b)
    ensures a == b
  {
    hide Signed, Padded;
    PaddedValue(a.pid, 10);
    PaddedValue(b.pid, 10);
    PaddedValue(a.attempt, 4);
    PaddedValue(b.attempt, 4);
    SplitLast(Signed(a.timestamp, 20) + "-" + Padded(a.pid, 10), Padded(a.attempt, 4),
              Signed(b.timestamp, 20) + "-" + Padded(b.pid, 10), Padded(b.attempt, 4));
    SplitLast(Signed(a.timestamp, 20), Padded(a.pid, 10), Signed(b.timestamp, 20), Padded(b.pid, 10));
    SignedInjective(a.timestamp, b.timestamp, 20);
  }

  lemma IdTextStart(id: RecordId)
    ensures IdText(id) != "" && (IsDigit(IdText(id)[0]) || IdText(id)[0] == '-')
  {
    hide Signed, Padded;
    SignShows(id.timestamp, 20);
    assert IdText(id)[0] == Signed(id.timestamp, 20)[0];
  }

  lemma Unwrapped(before: string, a: string, b: string, after: string)
    requires before + a + after == before + b + after
    ensures a == b
  {
    var s := before + a + after;
    assert |a| == |b|;
    assert s[|before|..|before| + |a|] == a && s[|before|..|before| + |b|] == b;
  }

  function FirstChar(name: FileName): char {
    match name
    case IntentFile(_) => 'i'
    case RecordFile(id) => if IdText(id) == "" then '?' else IdText(id)[0]
    case Temporary(_) => '.'
  }

  lemma FirstCharIs(name: FileName)
    ensures FileText(name) != "" && FileText(name)[0] == FirstChar(name)
  {
  }

  /** Different names are spelled differently: intents, records and temporary files never collide. */
  lemma {:induction false} FileTextInjective(a: FileName, b: FileName)
    requires FileText(a) == FileText(b)
    ensures a == b
  {
    hide IdText;
    FirstCharIs(a);
    FirstCharIs(b);
    if a.IntentFile? && b.IntentFile? {
      Unwrapped("intent-", IdText(a.id), IdText(b.id), ".json");
      IdTextInjective(a.id, b.id);
    } else if a.RecordFile? && b.RecordFile? {
      assert FileText(a) == "" + IdText(a.id) + ".json";
      assert FileText(b) == "" + IdText(b.id) + ".json";
      Unwrapped("", IdText(a.id), IdText(b.id), ".json");
      IdTextInjective(a.id, b.id);
    } else if a.Temporary? && b.Temporary? {
      Unwrapped(".", FileText(a.final), FileText(b.final), ".tmp");
      FileTextInjective(a.final, b.final);
    } else {
      if a.RecordFile? { IdTextStart(a.id); }
      if b.RecordFile? { IdTextStart(b.id); }
    }
  }
}
