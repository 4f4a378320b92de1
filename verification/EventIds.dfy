/** Identities and sequence numbers for new audit events. */
module EventIds {
  import opened Wrappers
  import opened LedgerRecords
  import opened Decimals

  const MAX_SQLITE_INTEGER: int := 0x7FFF_FFFF_FFFF_FFFF

  const MAX_EVENT_ID_LENGTH: nat := 64

  /******* Decimal numerals *******/

  function Digit(d: nat): char
    requires d < 10
  {
    '0' + d as char
  }

  function Numeral(n: nat): string {
    if n < 10 then [Digit(n)] else Numeral(n / 10) + [Digit(n % 10)]
  }

  lemma {:induction false} NumeralLength(n: nat, digits: nat)
    requires 1 <= digits
    ensures 1 <= |Numeral(n)|
    ensures n < Pow10(digits) ==> |Numeral(n)| <= digits
  {
    if n >= 10 {
      NumeralLength(n / 10, if digits == 1 then 1 else digits - 1);
    }
  }

  lemma {:induction false} NumeralsDiffer(m: nat, n: nat)
    requires m != n
    ensures Numeral(m) != Numeral(n)
  {
    var s, t := Numeral(m), Numeral(n);
    if s == t {
      NumeralLength(m, 1);
      NumeralLength(n, 1);
      assert s[|s| - 1] == t[|t| - 1];
      assert Digit(m % 10) == Digit(n % 10);
      if m >= 10 {
        NumeralLength(m / 10, 1);
      }
      if n >= 10 {
        NumeralLength(n / 10, 1);
      }
      if m >= 10 && n >= 10 {
        assert s[..|s| - 1] == Numeral(m / 10) && t[..|t| - 1] == Numeral(n / 10);
        NumeralsDiffer(m / 10, n / 10);
      }
    }
  }

  function Zeros(n: nat): string {
    seq(n, _ => '0')
  }

  /** Zero-padded to at least width characters. */
  function Padded(n: nat, width: nat): string {
    var s := Numeral(n);
    if |s| < width then Zeros(width - |s|) + s else s
  }

  /** The number that a decimal numeral reads as. */
  function Value(s: string): nat
    requires forall k :: 0 <= k < |s| ==> '0' <= s[k] <= '9'
  {
    if s == "" then 0 else 10 * Value(s[..|s| - 1]) + (s[|s| - 1] as int - '0' as int)
  }

  lemma {:induction false} NumeralReadsBack(n: nat)
    ensures forall k :: 0 <= k < |Numeral(n)| ==> '0' <= Numeral(n)[k] <= '9'
    ensures Value(Numeral(n)) == n
  {
    if n >= 10 {
      NumeralReadsBack(n / 10);
      var s := Numeral(n);
      assert s[..|s| - 1] == Numeral(n / 10) && s[|s| - 1] == Digit(n % 10);
    }
  }

  lemma {:induction false} ZerosAreNothing(n: nat)
    ensures Value(Zeros(n)) == 0
  {
    if n > 0 {
      ZerosAreNothing(n - 1);
      assert Zeros(n)[..n - 1] == Zeros(n - 1);
    }
  }

  lemma {:induction false} ZerosReadAsNothing(n: nat, s: string)
    requires forall k :: 0 <= k < |s| ==> '0' <= s[k] <= '9'
    ensures Value(Zeros(n) + s) == Value(s)
  {
    var all := Zeros(n) + s;
    if s == "" {
      ZerosAreNothing(n);
      assert all == Zeros(n);
    } else {
      var last := |s| - 1;
      ZerosReadAsNothing(n, s[..last]);
      assert all[..|all| - 1] == Zeros(n) + s[..last] && all[|all| - 1] == s[last];
    }
  }

  /** A padded numeral is at least so wide, and reads as the same number. */
  lemma PaddedReadsBack(n: nat, width: nat)
    ensures |Padded(n, width)| >= width && forall k :: 0 <= k < |Padded(n, width)| ==> '0' <= Padded(n, width)[k] <= '9'
    ensures Value(Padded(n, width)) == n
  {
    NumeralReadsBack(n);
    hide Numeral, Value;
    if |Numeral(n)| < width {
      ZerosReadAsNothing(width - |Numeral(n)|, Numeral(n));
    }
  }

  /******* Candidate ids *******/

  function Canonical(sequence: nat): string {
    "audit-sqlite-" + Padded(sequence, 20)
  }

  function Candidate(sequence: nat, k: nat): string {
    if k == 0 then Canonical(sequence) else Canonical(sequence) + "-" + Numeral(k)
  }

  lemma CandidatesDiffer(sequence: nat, j: nat, k: nat)
    requires j != k
    ensures Candidate(sequence, j) != Candidate(sequence, k)
  {
    hide Canonical, Numeral;
    var base := Canonical(sequence);
    if j != 0 && k != 0 {
      NumeralsDiffer(j, k);
      var s, t := Candidate(sequence, j), Candidate(sequence, k);
      assert s[|base| + 1..] == Numeral(j) && t[|base| + 1..] == Numeral(k);
    } else {
      assert |Candidate(sequence, if j == 0 then k else j)| > |base|;
    }
  }

  function Candidates(sequence: nat, n: nat): set<string> {
    set k | 0 <= k < n :: Candidate(sequence, k)
  }

  lemma {:induction false} CountCandidates(sequence: nat, n: nat)
    ensures |Candidates(sequence, n)| == n
  {
    hide Candidate;
    if n > 0 {
      CountCandidates(sequence, n - 1);
      var fewer := Candidates(sequence, n - 1);
      assert Candidates(sequence, n) == fewer + {Candidate(sequence, n - 1)};
      assert Candidate(sequence, n - 1) !in fewer by {
        forall k | 0 <= k < n - 1
          ensures Candidate(sequence, k) != Candidate(sequence, n - 1)
        {
          CandidatesDiffer(sequence, k, n - 1);
        }
      }
    }
  }

  lemma SubsetCounts<T>(some: set<T>, all: set<T>)
    requires some <= all
    ensures |some| <= |all|
  {
    assert all == some + (all - some);
  }

  /** The canonical id and |used| suffixed ones cannot all be taken. */
  lemma SomeCandidateIsFree(sequence: nat, used: set<string>)
    ensures exists k :: 0 <= k <= |used| && Candidate(sequence, k) !in used
  {
    hide Candidate;
    if forall k :: 0 <= k <= |used| ==> Candidate(sequence, k) in used {
      CountCandidates(sequence, |used| + 1);
      SubsetCounts(Candidates(sequence, |used| + 1), used);
      assert false;
    }
  }

  /** What the schema asks of an event id: its length, its prefix, lower-case letters, digits
      and hyphens, no hyphen next to another or at the end. */
  predicate IdAllowed(id: string) {
    && 7 <= |id| <= MAX_EVENT_ID_LENGTH
    && id[..6] == "audit-"
    && (forall k :: 6 <= k < |id| ==> 'a' <= id[k] <= 'z' || '0' <= id[k] <= '9' || id[k] == '-')
    && (forall k :: 1 <= k < |id| ==> id[k] != '-' || id[k - 1] != '-')
    && id[6] != '-' && id[|id| - 1] != '-'
  }

  predicate IsWord(w: string) {
    w != "" && forall k :: 0 <= k < |w| ==> 'a' <= w[k] <= 'z' || '0' <= w[k] <= '9'
  }

  ghost predicate AreWords(words: seq<string>) {
    words != [] && forall w :: w in words ==> IsWord(w)
  }

  function Hyphenated(words: seq<string>): string
    requires words != []
  {
    var n := |words| - 1;
    if n == 0 then words[0] else Hyphenated(words[..n]) + "-" + words[n]
  }

  /** What a record asks of the same id: its length, and words behind the prefix with single
      hyphens between them. */
  ghost predicate MatchesPattern(id: string) {
    |id| <= 64 && exists words :: AreWords(words) && id == "audit-" + Hyphenated(words)
  }

  /** The characters that the schema lets follow the prefix. */
  predicate IsTail(s: string) {
    && s != [] && s[0] != '-' && s[|s| - 1] != '-'
    && (forall k :: 0 <= k < |s| ==> 'a' <= s[k] <= 'z' || '0' <= s[k] <= '9' || s[k] == '-')
    && (forall k :: 1 <= k < |s| ==> s[k] != '-' || s[k - 1] != '-')
  }

  lemma {:induction false} WordsAreTail(words: seq<string>)
    requires AreWords(words)
    ensures IsTail(Hyphenated(words))
  {
    var n := |words| - 1;
    assert IsWord(words[n]);
    if n > 0 {
      WordsAreTail(words[..n]);
      JoinedIsTail(Hyphenated(words[..n]), words[n]);
    }
  }

  lemma JoinedIsTail(s: string, w: string)
    requires IsTail(s) && IsWord(w)
    ensures IsTail(s + "-" + w)
  {
    var all := s + "-" + w;
    assert forall k :: 0 <= k < |all| ==> all[k] == if k < |s| then s[k] else if k == |s| then '-' else w[k - |s| - 1];
  }

  lemma {:induction false} TailIsWords(s: string) returns (words: seq<string>)
    requires IsTail(s)
    ensures AreWords(words) && s == Hyphenated(words)
    decreases |s|
  {
    if '-' !in s {
      words := [s];
    } else {
      var k := LastHyphen(s);
      var head := TailIsWords(s[..k]);
      words := head + [s[k + 1..]];
      assert words[..|head|] == head && s == s[..k] + "-" + s[k + 1..];
    }
  }

  lemma LastHyphen(s: string) returns (k: nat)
    requires '-' in s
    ensures k < |s| && s[k] == '-' && forall j :: k < j < |s| ==> s[j] != '-'
  {
    k := |s| - 1;
    while s[k] != '-'
      invariant 0 <= k < |s| && forall j :: k < j < |s| ==> s[j] != '-'
      invariant exists j :: 0 <= j <= k && s[j] == '-'
      decreases k
    {
      k := k - 1;
    }
  }

  lemma AllowedTail(id: string)
    ensures IdAllowed(id) <==> 7 <= |id| <= MAX_EVENT_ID_LENGTH && id[..6] == "audit-" && IsTail(id[6..])
  {
    if 7 <= |id| && id[..6] == "audit-" {
      var s := id[6..];
      assert forall k :: 0 <= k < |s| ==> s[k] == id[k + 6];
      assert forall k :: 6 <= k < |id| ==> id[k] == s[k - 6];
      assert forall k :: 0 <= k < 6 ==> id[k] == id[..6][k];
    }
  }

  /** The checks of the schema and the pattern of the records let through the same ids. */
  lemma SchemaMatchesPattern(id: string)
    ensures IdAllowed(id) <==> MatchesPattern(id)
  {
    hide IdAllowed, IsTail, IsWord, Hyphenated;
    AllowedTail(id);
    if MatchesPattern(id) {
      var words :| AreWords(words) && id == "audit-" + Hyphenated(words);
      WordsAreTail(words);
      assert id[6..] == Hyphenated(words) && Hyphenated(words) != [] by { TailNotEmpty(Hyphenated(words)); }
    }
    if IdAllowed(id) {
      var words := TailIsWords(id[6..]);
      assert id == id[..6] + id[6..];
    }
  }

  lemma TailNotEmpty(s: string)
    requires IsTail(s)
    ensures s != []
  {
  }

  predicate AllDigits(s: string) {
    forall k :: 0 <= k < |s| ==> '0' <= s[k] <= '9'
  }

  lemma {:induction false} NumeralIsDigits(n: nat)
    ensures |Numeral(n)| > 0 && AllDigits(Numeral(n))
  {
    if n >= 10 {
      NumeralIsDigits(n / 10);
    }
  }

  lemma IntegersAreShort()
    ensures MAX_SQLITE_INTEGER < Pow10(20) <= Pow10(30)
  {
    assert Pow10(5) == 100_000;
    assert Pow10(10) == 10_000_000_000;
    assert Pow10(15) == 1_000_000_000_000_000;
    assert Pow10(20) == 100_000_000_000_000_000_000;
    Pow10Monotone(20, 30);
  }

  lemma PaddedTo20(sequence: nat)
    requires sequence <= MAX_SQLITE_INTEGER
    ensures |Padded(sequence, 20)| == 20 && AllDigits(Padded(sequence, 20))
  {
    IntegersAreShort();
    NumeralLength(sequence, 20);
    NumeralIsDigits(sequence);
    hide Numeral, Pow10;
  }

  lemma CanonicalAllowed(sequence: nat)
    requires sequence <= MAX_SQLITE_INTEGER
    ensures |Canonical(sequence)| == 33 && IdAllowed(Canonical(sequence))
  {
    PaddedTo20(sequence);
    hide Padded;
    var prefix, padded, id := "audit-sqlite-", Padded(sequence, 20), Canonical(sequence);
    assert id[..6] == "audit-";
    assert forall k :: 0 <= k < 33 ==> id[k] == if k < 13 then prefix[k] else padded[k - 13];
    hide Canonical;
  }

  /** Short of 10^30 events every candidate is an id the schema allows. */
  lemma CandidateAllowed(sequence: nat, k: nat)
    requires sequence <= MAX_SQLITE_INTEGER && k < Pow10(30)
    ensures IdAllowed(Candidate(sequence, k))
  {
    CanonicalAllowed(sequence);
    NumeralLength(k, 30);
    NumeralIsDigits(k);
    hide Numeral, Canonical, Pow10;
    var base, n := Canonical(sequence), Numeral(k);
    if k > 0 {
      var id := base + "-" + n;
      assert |id| == 34 + |n| && id[..6] == base[..6];
      forall j | 0 <= j < |id|
        ensures id[j] == if j < 33 then base[j] else if j == 33 then '-' else n[j - 34]
      {
      }
    }
  }

  /******* The next id and sequence *******/

  /** The first free candidate. */
  ghost predicate IsNextId(used: set<string>, sequence: nat, id: string) {
    exists k :: 0 <= k <= |used| && FirstFree(used, sequence, id, k)
  }

  ghost predicate FirstFree(used: set<string>, sequence: nat, id: string, k: nat) {
    id == Candidate(sequence, k) && id !in used && forall j :: 0 <= j < k ==> Candidate(sequence, j) in used
  }

  method NextEventId(used: set<string>, sequence: nat) returns (id: Option<string>)
    ensures id.Some? && IsNextId(used, sequence, id.value)
  {
    hide Candidate;
    if Candidate(sequence, 0) !in used {
      assert FirstFree(used, sequence, Candidate(sequence, 0), 0);
      return Some(Candidate(sequence, 0));
    }
    for suffix := 1 to |used| + 1
      invariant forall j :: 0 <= j < suffix ==> Candidate(sequence, j) in used
    {
      var candidate := Candidate(sequence, suffix);
      if candidate !in used {
        assert FirstFree(used, sequence, candidate, suffix);
        return Some(candidate);
      }
    }
    SomeCandidateIsFree(sequence, used);
    assert false;
    id := None;
  }

  lemma NextIdIsUnique(used: set<string>, sequence: nat, id: string, other: string)
    requires IsNextId(used, sequence, id) && IsNextId(used, sequence, other)
    ensures id == other
  {
    hide Candidate;
  }

  ghost predicate IsHighest(sequences: set<int>, highest: int) {
    && (forall s :: s in sequences ==> s <= highest)
    && (if sequences == {} then highest == 0 else highest in sequences)
  }

  function SequencesOf(events: set<Event>): set<int> {
    set e | e in events :: e.sequence
  }

  function IdsOf(events: set<Event>): set<string> {
    set e | e in events :: e.eventId
  }

  /** One more than the highest sequence, unless that leaves the integer range. */
  method NextSequence(events: seq<Event>) returns (next: Option<int>)
    ensures next.Some? ==> next.value <= MAX_SQLITE_INTEGER && IsHighest(SequencesOf(set e | e in events), next.value - 1)
    ensures next.None? ==> exists e :: e in events && e.sequence >= MAX_SQLITE_INTEGER
  {
    var highest := 0;
    for k := 0 to |events|
      invariant if k == 0 then highest == 0 else exists j :: 0 <= j < k && events[j].sequence == highest
      invariant forall j :: 0 <= j < k ==> events[j].sequence <= highest
    {
      if k == 0 || events[k].sequence > highest {
        highest := events[k].sequence;
      }
    }
    ghost var all := set e | e in events;
    forall s | s in SequencesOf(all)
      ensures s <= highest
    {
      var e :| e in all && e.sequence == s;
    }
    if events != [] {
      assert events[0].sequence in SequencesOf(all);
      var j :| 0 <= j < |events| && events[j].sequence == highest;
      assert events[j] in all;
    } else {
      assert all == {} && SequencesOf(all) == {};
    }
    assert IsHighest(SequencesOf(all), highest);
    next := if highest >= MAX_SQLITE_INTEGER then None else Some(highest + 1);
  }
}
