/** The per-tenant codes: a counter per entity and tenant, and its printed form. */
module CodeSequence {
  import opened Cep

  datatype Key = Key(entityType: string, tenantId: nat)

  // ---- Printing ----

  function DigitChar(d: nat): (c: char)
    requires d < 10
    ensures IsDigit(c) && Digit(c) == d
  {
    ('0' as nat + d) as char
  }

  function Decimal(n: nat): (s: string)
    ensures s != "" && AllDigits(s)
  {
    if n < 10 then [DigitChar(n)] else Decimal(n / 10) + [DigitChar(n % 10)]
  }

  function Zeros(n: nat): string {
    seq(n, _ => '0')
  }

  function PadStart(s: string, width: nat): string {
    if |s| >= width then s else Zeros(width - |s|) + s
  }

  function Code(prefix: string, n: nat): string {
    prefix + "-" + PadStart(Decimal(n), 6)
  }

  lemma {:induction false} DecimalReadsBack(n: nat)
    ensures Value(Decimal(n)) == n
  {
    if n < 10 {
      assert [DigitChar(n)][1..] == "";
    } else {
      DecimalReadsBack(n / 10);
      ValueSnoc(Decimal(n / 10), DigitChar(n % 10));
    }
  }

  /** The number of a code can be read back from it, whatever its size. */
  lemma CodeReadsBack(prefix: string, n: nat)
    ensures var digits := PadStart(Decimal(n), 6);
      && Code(prefix, n)[|prefix| + 1..] == digits && AllDigits(digits) && Value(digits) == n
  {
    DecimalReadsBack(n);
    var digits := PadStart(Decimal(n), 6);
    if |Decimal(n)| < 6 {
      ZerosAhead(Zeros(6 - |Decimal(n)|), Decimal(n));
    }
    assert Code(prefix, n) == (prefix + "-") + digits;
  }

  /** Different numbers have different codes. */
  lemma CodesDiffer(prefix: string, m: nat, n: nat)
    requires Code(prefix, m) == Code(prefix, n)
    ensures m == n
  {
    CodeReadsBack(prefix, m);
    CodeReadsBack(prefix, n);
  }

  lemma {:induction false} DecimalLength(n: nat, k: nat)
    requires k >= 1
    ensures |Decimal(n)| <= k <==> n < PowerOfTen(k)
  {
    if k == 1 {
      assert PowerOfTen(1) == 10 * PowerOfTen(0);
    } else if n >= 10 {
      DecimalLength(n / 10, k - 1);
    } else {
      PowerAtLeastTen(k);
    }
  }

  lemma {:induction false} PowerAtLeastTen(k: nat)
    requires k >= 1
    ensures PowerOfTen(k) >= 10
  {
    if k > 1 {
      PowerAtLeastTen(k - 1);
    } else {
      assert PowerOfTen(1) == 10 * PowerOfTen(0);
    }
  }

  /** Six digits are enough exactly up to 999999; after that the code just grows. */
  lemma SixDigitsUpToAMillion(n: nat)
    ensures |PadStart(Decimal(n), 6)| >= 6
    ensures |PadStart(Decimal(n), 6)| == 6 <==> n <= 999999
  {
    DecimalLength(n, 6);
    assert PowerOfTen(6) == 1000000;
  }

  // ---- Allocating ----

  /** The next value to give out; a counter not yet there will start at 1. */
  function NextValue(sequences: map<Key, nat>, key: Key): nat {
    if key in sequences then sequences[key] else 1
  }

  function Allocated(sequences: map<Key, nat>, key: Key): map<Key, nat> {
    sequences[key := NextValue(sequences, key) + 1]
  }

  /** A transaction that takes one code and then commits or rolls back. */
  datatype Transaction = Transaction(key: Key, commits: bool)

  function Run(ts: seq<Transaction>): map<Key, nat> {
    if ts == [] then map[]
    else
      var before, t := Run(ts[..|ts| - 1]), ts[|ts| - 1];
      if t.commits then Allocated(before, t.key) else before
  }

  /** The numbers given to transactions that committed, in their order. */
  function Committed(ts: seq<Transaction>, key: Key): seq<nat> {
    if ts == [] then []
    else
      var front, t := ts[..|ts| - 1], ts[|ts| - 1];
      Committed(front, key) + if t.commits && t.key == key then [NextValue(Run(front), key)] else []
  }

  /** The committed numbers are exactly 1, 2, ... up to the counter, each once and in order,
      however many transactions rolled back. */
  lemma {:induction false} CommittedIsAnInterval(ts: seq<Transaction>, key: Key)
    ensures NextValue(Run(ts), key) >= 1
    ensures Committed(ts, key) == seq(NextValue(Run(ts), key) - 1, i => i + 1)
  {
    if ts != [] {
      CommittedIsAnInterval(ts[..|ts| - 1], key);
    }
  }

  /** So no two committed allocations of a counter share a code. */
  lemma CommittedCodesDiffer(ts: seq<Transaction>, key: Key, prefix: string, i: nat, j: nat)
    requires i < j < |Committed(ts, key)|
    ensures Code(prefix, Committed(ts, key)[i]) != Code(prefix, Committed(ts, key)[j])
  {
    CommittedIsAnInterval(ts, key);
    if Code(prefix, Committed(ts, key)[i]) == Code(prefix, Committed(ts, key)[j]) {
      CodesDiffer(prefix, Committed(ts, key)[i], Committed(ts, key)[j]);
    }
  }

  class SequenceTable {
    var sequences: map<Key, nat>
    ghost var ran: seq<Transaction>

    ghost predicate Valid()
      reads this
    {
      sequences == Run(ran)
    }

    constructor ()
      ensures Valid() && ran == []
    {
      sequences, ran := map[], [];
    }

    /** The upsert: a new counter is stored as 2, an old one is incremented. */
    method GenerateTenantCode(key: Key, prefix: string) returns (code: string)
      requires key in sequences ==> sequences[key] >= 1
      modifies this`sequences
      ensures sequences == Allocated(old(sequences), key)
      ensures code == Code(prefix, NextValue(old(sequences), key))
    {
      if key in sequences {
        sequences := sequences[key := sequences[key] + 1];
      } else {
        sequences := sequences[key := 2];
      }
      var currentValue := sequences[key] - 1;
      code := prefix + "-" + PadStart(Decimal(currentValue), 6);
    }

    /** What follows the allocation in the transaction decides whether it commits. */
    method InTransaction(key: Key, prefix: string, commits: bool) returns (code: string)
      requires Valid()
      modifies this
      ensures Valid() && ran == old(ran) + [Transaction(key, commits)]
      ensures code == Code(prefix, NextValue(old(sequences), key))
      ensures commits ==> Committed(ran, key) == Committed(old(ran), key) + [NextValue(old(sequences), key)]
      ensures !commits ==> sequences == old(sequences)
    {
      CommittedIsAnInterval(ran, key);
      var begun := sequences;
      code := GenerateTenantCode(key, prefix);
      if !commits {
        sequences := begun;
      }
      ran := ran + [Transaction(key, commits)];
      assert ran[..|ran| - 1] == old(ran);
    }
  }
}
