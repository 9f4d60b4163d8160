/** The enclave's replay map: text keys built from (session id, round, message hash), at most 1000
    entries, evicting the 100 smallest keys (cmd/mpc-enclave/src/ipc.rs). */
module ReplayCache {
  import opened Bytes
  import opened Texts

  // ----- Key text -----

  function HexDigit(n: nat): (r: char)
    requires n < 16
  {
    if n < 10 then ('0' as int + n) as char else ('a' as int + n - 10) as char
  }

  function HexByte(b: Byte): (r: string)
    ensures ',' !in r && ':' !in r && |r| > 0
  {
    if b < 16 then [HexDigit(b)] else [HexDigit(b / 16), HexDigit(b % 16)]
  }

  lemma HexDigitInjective(a: nat, b: nat)
    requires a < 16 && b < 16 && HexDigit(a) == HexDigit(b)
    ensures a == b
  {
  }

  lemma HexByteInjective(a: Byte, b: Byte)
    requires HexByte(a) == HexByte(b)
    ensures a == b
  {
    var s, t := HexByte(a), HexByte(b);
    assert |s| == |t|;
    if a < 16 {
      assert s[0] == t[0];
      HexDigitInjective(a, b);
    } else {
      assert s[0] == t[0] && s[1] == t[1];
      HexDigitInjective(a / 16, b / 16);
      HexDigitInjective(a % 16, b % 16);
    }
  }

  /** Lower-case hexadecimal bytes without padding, separated by ", ". */
  function HexList(h: seq<Byte>): (r: string)
    ensures ':' !in r
    ensures h == [] <==> r == ""
  {
    if h == [] then ""
    else if |h| == 1 then HexByte(h[0])
    else HexByte(h[0]) + ", " + HexList(h[1..])
  }

  /** Text split at the first separator determines both halves. */
  lemma FirstSplit(a: string, x: string, b: string, y: string, c: char)
    requires c !in a && c !in b
    requires a + [c] + x == b + [c] + y
    ensures a == b && x == y
  {
    var s := a + [c] + x;
    assert s[|a|] == c && s[|b|] == (b + [c] + y)[|b|] == c;
    assert forall i :: 0 <= i < |a| ==> s[i] == a[i] != c;
    assert forall i :: 0 <= i < |b| ==> s[i] == (b + [c] + y)[i] == b[i] != c;
    assert |a| == |b|;
    assert a == s[..|a|] && b == s[..|a|];
    assert x == s[|a| + 1..] && y == s[|a| + 1..];
  }

  /** Text split at the last separator determines both halves. */
  lemma LastSplit(a: string, x: string, b: string, y: string, c: char)
    requires c !in x && c !in y
    requires a + [c] + x == b + [c] + y
    ensures a == b && x == y
  {
    var s := a + [c] + x;
    assert s[|a|] == c && s[|b|] == (b + [c] + y)[|b|] == c;
    assert forall i :: |a| < i < |s| ==> s[i] == x[i - |a| - 1] != c;
    assert forall i :: |b| < i < |s| ==> s[i] == (b + [c] + y)[i] == y[i - |b| - 1] != c;
    assert |a| == |b|;
    assert a == s[..|a|] && b == s[..|a|];
    assert x == s[|a| + 1..] && y == s[|a| + 1..];
  }

  lemma HeadSplit(h: seq<Byte>)
    requires |h| >= 2
    ensures HexList(h) == HexByte(h[0]) + [','] + (" " + HexList(h[1..]))
  {
  }

  lemma CommaWhenSeveral(h: seq<Byte>)
    ensures ',' in HexList(h) <==> |h| >= 2
  {
    if |h| >= 2 {
      HeadSplit(h);
      assert HexList(h)[|HexByte(h[0])|] == ',';
    }
  }

  lemma {:induction false} HexListInjective(h: seq<Byte>, g: seq<Byte>)
    requires HexList(h) == HexList(g)
    ensures h == g
    decreases |h|
  {
    CommaWhenSeveral(h);
    CommaWhenSeveral(g);
    if |h| == 1 {
      HexByteInjective(h[0], g[0]);
    } else if |h| >= 2 {
      HeadSplit(h);
      HeadSplit(g);
      var x, y := " " + HexList(h[1..]), " " + HexList(g[1..]);
      FirstSplit(HexByte(h[0]), x, HexByte(g[0]), y, ',');
      HexByteInjective(h[0], g[0]);
      assert HexList(h[1..]) == x[1..] && HexList(g[1..]) == y[1..];
      HexListInjective(h[1..], g[1..]);
      assert h == [h[0]] + h[1..] && g == [g[0]] + g[1..];
    }
  }

  datatype Use = Use(sessionId: string, round: Byte, hash: seq<Byte>)

  function Key(u: Use): (r: string) {
    u.sessionId + ":" + Decimal(u.round) + ":" + ("[" + HexList(u.hash) + "]")
  }

  /** The key text tells uses apart, even when session ids contain ':'. */
  lemma KeyInjective(u: Use, v: Use)
    requires Key(u) == Key(v)
    ensures u == v
  {
    var x, y := "[" + HexList(u.hash) + "]", "[" + HexList(v.hash) + "]";
    LastSplit(u.sessionId + ":" + Decimal(u.round), x, v.sessionId + ":" + Decimal(v.round), y, ':');
    assert ':' !in Decimal(u.round) && ':' !in Decimal(v.round);
    LastSplit(u.sessionId, Decimal(u.round), v.sessionId, Decimal(v.round), ':');
    DecimalInjective(u.round, v.round);
    assert HexList(u.hash) == x[1..|x| - 1] && HexList(v.hash) == y[1..|y| - 1];
    HexListInjective(u.hash, v.hash);
  }

  /** The key of a use, spelled out once. */
  lemma KeyExample()
    ensures Key(Use("s:1", 2, [0, 10, 255])) == "s:1:2:[0, a, ff]"
  {
    assert HexByte(0) == "0" && HexByte(10) == "a" && HexByte(255) == "ff";
    assert [0, 10, 255][1..] == [10, 255] && [10, 255][1..] == [255];
    assert HexList([255]) == "ff";
    assert HexList([10, 255]) == "a, ff";
    assert HexList([0, 10, 255]) == "0, a, ff";
    assert Decimal(2) == "2";
  }

  // ----- Key order -----

  /** Lexicographic order of key text. */
  predicate Less(a: string, b: string) {
    if b == "" then false
    else if a == "" then true
    else a[0] < b[0] || (a[0] == b[0] && Less(a[1..], b[1..]))
  }

  /** A text precedes another if it is a proper prefix, or smaller at the first place where they differ. */
  lemma {:induction false} LessMeans(a: string, b: string)
    ensures Less(a, b) <==> (a <= b && |a| < |b|) || exists k: nat :: DiffersAt(a, b, k) && a[k] < b[k]
    decreases |a|
  {
    if a != "" && b != "" && a[0] == b[0] {
      LessMeans(a[1..], b[1..]);
      assert a == [a[0]] + a[1..] && b == [b[0]] + b[1..];
      assert a <= b <==> a[1..] <= b[1..];
      if k: nat :| DiffersAt(a[1..], b[1..], k) && a[1..][k] < b[1..][k] {
        assert forall i :: 0 < i < k + 1 ==> a[i] == a[1..][i - 1] == b[1..][i - 1] == b[i];
        assert DiffersAt(a, b, k + 1) && a[k + 1] < b[k + 1];
      }
      if k: nat :| DiffersAt(a, b, k) && a[k] < b[k] {
        assert k > 0;
        assert DiffersAt(a[1..], b[1..], k - 1) && a[1..][k - 1] < b[1..][k - 1];
      }
    } else if a != "" && b != "" {
      if a[0] < b[0] {
        assert DiffersAt(a, b, 0);
      }
    }
  }

  predicate DiffersAt(a: string, b: string, k: nat) {
    k < |a| && k < |b| && (forall i :: 0 <= i < k ==> a[i] == b[i]) && a[k] != b[k]
  }

  lemma {:induction false} LessIrreflexive(a: string)
    ensures !Less(a, a)
  {
    if a != "" {
      LessIrreflexive(a[1..]);
    }
  }

  lemma {:induction false} LessTransitive(a: string, b: string, c: string)
    requires Less(a, b) && Less(b, c)
    ensures Less(a, c)
    decreases |a|
  {
    if a != "" && a[0] == b[0] && b[0] == c[0] {
      LessTransitive(a[1..], b[1..], c[1..]);
    }
  }

  lemma {:induction false} LessTotal(a: string, b: string)
    requires a != b
    ensures Less(a, b) || Less(b, a)
    decreases |a|
  {
    if a != "" && b != "" && a[0] == b[0] {
      assert a == [a[0]] + a[1..] && b == [b[0]] + b[1..];
      LessTotal(a[1..], b[1..]);
    }
  }

  ghost predicate IsLeast(s: set<string>, m: string) {
    m in s && forall k :: k in s && k != m ==> Less(m, k)
  }

  lemma LeastUnique(s: set<string>, a: string, b: string)
    requires IsLeast(s, a) && IsLeast(s, b)
    ensures a == b
  {
    if a != b {
      LessTransitive(a, b, a);
      LessIrreflexive(a);
    }
  }

  lemma {:induction false} LeastExists(s: set<string>) returns (m: string)
    requires s != {}
    ensures IsLeast(s, m)
    decreases |s|
  {
    m :| m in s;
    if s != {m} {
      var rest := s - {m};
      assert s == rest + {m};
      var k := LeastExists(rest);
      m := LeastOfTwo(rest, k, m);
    }
  }

  lemma LeastOfTwo(rest: set<string>, k: string, m: string) returns (r: string)
    requires IsLeast(rest, k) && m !in rest
    ensures IsLeast(rest + {m}, r)
  {
    LessTotal(k, m);
    if Less(k, m) {
      r := k;
    } else {
      r := m;
      forall j | j in rest + {m} && j != m ensures Less(m, j) {
        if j != k {
          LessTransitive(m, k, j);
        }
      }
    }
  }

  // ----- Eviction -----

  /** The `n` smallest keys (all of them if there are fewer). */
  ghost function Smallest(s: set<string>, n: nat): (r: set<string>)
    ensures r <= s
  {
    if n == 0 || s == {} then {} else
      LeastLemma(s);
      var m :| IsLeast(s, m);
      {m} + Smallest(s - {m}, n - 1)
  }

  lemma LeastLemma(s: set<string>)
    requires s != {}
    ensures exists m :: IsLeast(s, m)
  {
    var m := LeastExists(s);
  }

  ghost function Below(s: set<string>, k: string): (r: set<string>) {
    set j | j in s && Less(j, k)
  }

  /** A key is among the `n` smallest exactly when fewer than `n` keys precede it. */
  lemma {:induction false} AmongSmallest(s: set<string>, n: nat, k: string)
    requires k in s
    ensures k in Smallest(s, n) <==> |Below(s, k)| < n
    decreases n
  {
    if n > 0 {
      LeastLemma(s);
      var m :| IsLeast(s, m) && Smallest(s, n) == {m} + Smallest(s - {m}, n - 1);
      if k == m {
        NothingBelowLeast(s, m);
      } else {
        AmongSmallest(s - {m}, n - 1, k);
        BelowWithoutLeast(s, m, k);
      }
    }
  }

  lemma BelowWithoutLeast(s: set<string>, m: string, k: string)
    requires IsLeast(s, m) && k in s && k != m
    ensures |Below(s, k)| == |Below(s - {m}, k)| + 1
  {
    assert Below(s, k) == Below(s - {m}, k) + {m};
  }

  lemma NothingBelowLeast(s: set<string>, m: string)
    requires IsLeast(s, m)
    ensures Below(s, m) == {}
  {
    forall j | j in s ensures !Less(j, m) {
      if Less(j, m) {
        if j != m {
          LessTransitive(j, m, j);
        }
        LessIrreflexive(j);
      }
    }
  }

  lemma SmallestNone(s: set<string>)
    ensures Smallest(s, 0) == {}
  {
  }

  lemma SmallestHead(s: set<string>, n: nat) returns (m: string)
    requires n > 0 && s != {}
    ensures m in s && |s - {m}| == |s| - 1
    ensures |Smallest(s, n)| == |Smallest(s - {m}, n - 1)| + 1
  {
    LeastLemma(s);
    m :| IsLeast(s, m) && Smallest(s, n) == {m} + Smallest(s - {m}, n - 1);
    AddOne(Smallest(s - {m}, n - 1), m);
    assert Smallest(s, n) == Smallest(s - {m}, n - 1) + {m};
  }

  lemma AddOne<T>(s: set<T>, x: T)
    requires x !in s
    ensures |s + {x}| == |s| + 1
  {
  }

  lemma {:induction false} SmallestSize(s: set<string>, n: nat)
    requires n <= |s|
    ensures |Smallest(s, n)| == n
    decreases n
  {
    hide Smallest, IsLeast, Less;
    if n == 0 {
      SmallestNone(s);
    } else {
      var m := SmallestHead(s, n);
      SmallestSize(s - {m}, n - 1);
    }
  }

  // ----- The cache -----

  const CAPACITY: nat := 1000
  const EVICTED: nat := 100

  type Cache = map<string, seq<Byte>>

  ghost function Mark(cache: Cache, u: Use): (r: Cache) {
    var full := cache[Key(u) := u.hash];
    if |full| > CAPACITY then full - Smallest(full.Keys, EVICTED) else full
  }

  predicate Fresh(cache: Cache, u: Use) {
    Key(u) !in cache
  }

  ghost function MarkAll(marks: seq<Use>): (r: Cache) {
    if marks == [] then map[] else Mark(MarkAll(marks[..|marks| - 1]), marks[|marks| - 1])
  }

  lemma MarkSize(cache: Cache, u: Use)
    requires |cache| <= CAPACITY
    ensures |Mark(cache, u)| <= CAPACITY
  {
    hide Key, Smallest;
    var full := cache[Key(u) := u.hash];
    assert full.Keys == cache.Keys + {Key(u)};
    if Key(u) !in cache {
      AddOne(cache.Keys, Key(u));
    } else {
      assert full.Keys == cache.Keys;
    }
    if |full| > CAPACITY {
      var gone := Smallest(full.Keys, EVICTED);
      SmallestSize(full.Keys, EVICTED);
      assert (full - gone).Keys == full.Keys - gone;
    }
  }

  /** The cache never holds more than 1000 entries after an operation. */
  lemma {:induction false} CacheBounded(marks: seq<Use>)
    ensures |MarkAll(marks)| <= 1000
  {
    if marks != [] {
      CacheBounded(marks[..|marks| - 1]);
      MarkSize(MarkAll(marks[..|marks| - 1]), marks[|marks| - 1]);
    }
  }

  /** The only entries an operation loses are the 100 smallest keys, and only past 1000 entries. */
  lemma MarkLosesOnlySmallest(cache: Cache, u: Use, k: string)
    requires |cache| <= 1000
    ensures var keys := cache.Keys + {Key(u)};
            k in Mark(cache, u) <==> k in keys && (|keys| <= 1000 || |Below(keys, k)| >= 100)
    ensures k in Mark(cache, u) && k != Key(u) ==> Mark(cache, u)[k] == cache[k]
    ensures Key(u) in Mark(cache, u) ==> Mark(cache, u)[Key(u)] == u.hash
  {
    var full := cache[Key(u) := u.hash];
    assert full.Keys == cache.Keys + {Key(u)};
    if k in full {
      AmongSmallest(full.Keys, EVICTED, k);
    }
  }

  ghost predicate Cached(cache: Cache, used: set<Use>) {
    forall k :: k in cache ==> exists u :: u in used && Key(u) == k
  }

  ghost function Used(marks: seq<Use>): (r: set<Use>) {
    set u | u in marks
  }

  lemma MarkKeys(cache: Cache, u: Use)
    ensures Mark(cache, u).Keys <= cache.Keys + {Key(u)}
  {
    hide Key, Smallest;
  }

  lemma {:induction false} CacheWithinUsed(marks: seq<Use>)
    ensures Cached(MarkAll(marks), Used(marks))
  {
    hide Key, Mark;
    if marks != [] {
      var before, u := marks[..|marks| - 1], marks[|marks| - 1];
      CacheWithinUsed(before);
      assert marks == before + [u];
      MarkKeys(MarkAll(before), u);
      forall k | k in MarkAll(marks) ensures exists v :: v in Used(marks) && Key(v) == k {
        if k == Key(u) {
          assert u in Used(marks);
        } else {
          assert k in MarkAll(before);
          var v :| v in Used(before) && Key(v) == k;
          assert v in Used(marks);
        }
      }
    }
  }

  /** A use that was never marked is never rejected. */
  lemma NeverRejectsUnused(marks: seq<Use>, u: Use)
    requires u !in marks
    ensures Fresh(MarkAll(marks), u)
  {
    CacheWithinUsed(marks);
    if Key(u) in MarkAll(marks) {
      var v :| v in Used(marks) && Key(v) == Key(u);
      KeyInjective(u, v);
    }
  }

  ghost function KeysOfUses(used: set<Use>): (r: set<string>) {
    set u | u in used :: Key(u)
  }

  lemma UsedSnoc(marks: seq<Use>, u: Use)
    ensures Used(marks + [u]) == Used(marks) + {u}
    ensures KeysOfUses(Used(marks + [u])) == KeysOfUses(Used(marks)) + {Key(u)}
    ensures |Used(marks + [u])| == |Used(marks)| + if u in Used(marks) then 0 else 1
  {
    hide Key;
    assert Used(marks + [u]) == Used(marks) + {u};
    if u in Used(marks) {
      assert Used(marks) + {u} == Used(marks);
    }
  }

  lemma {:induction false} KeysOf(marks: seq<Use>)
    requires |Used(marks)| <= CAPACITY
    ensures MarkAll(marks).Keys == KeysOfUses(Used(marks))
    ensures |MarkAll(marks)| == |Used(marks)|
  {
    hide Key, KeysOfUses;
    if marks != [] {
      var before, u := marks[..|marks| - 1], marks[|marks| - 1];
      assert marks == before + [u];
      UsedSnoc(before, u);
      KeysOf(before);
      AddMark(before, u);
    } else {
      NoKeys();
    }
  }

  lemma NoKeys()
    ensures KeysOfUses(Used([])) == {}
  {
  }

  lemma AddMark(before: seq<Use>, u: Use)
    requires MarkAll(before).Keys == KeysOfUses(Used(before)) && |MarkAll(before)| == |Used(before)|
    requires |Used(before)| + (if u in Used(before) then 0 else 1) <= CAPACITY
    ensures Mark(MarkAll(before), u).Keys == MarkAll(before).Keys + {Key(u)}
    ensures |Mark(MarkAll(before), u)| == |Used(before)| + if u in Used(before) then 0 else 1
  {
    hide Key, MarkAll;
    var cache := MarkAll(before);
    var full := cache[Key(u) := u.hash];
    assert full.Keys == cache.Keys + {Key(u)};
    if u in Used(before) {
      assert full.Keys == cache.Keys;
    } else {
      NeverRejectsUnused(before, u);
      AddOne(cache.Keys, Key(u));
    }
    assert |full| == |full.Keys|;
  }

  /** Up to the 1001st distinct mark the cache is exactly the set of used triples. */
  lemma ExactUntilFull(marks: seq<Use>, u: Use)
    requires |Used(marks)| <= 1000
    ensures Fresh(MarkAll(marks), u) <==> u !in marks
  {
    KeysOf(marks);
    if u in marks {
      assert u in Used(marks);
    } else {
      NeverRejectsUnused(marks, u);
    }
  }

  /** A mark is remembered right after it is made unless it overflows the cache while fewer than
      100 stored keys precede it; in that case it is forgotten at once. */
  lemma MarkTakesEffect(cache: Cache, u: Use)
    requires |cache| <= 1000
    ensures !Fresh(Mark(cache, u), u) <==>
              Key(u) in cache || |cache| < 1000 || |Below(cache.Keys, Key(u))| >= 100
  {
    var keys := cache.Keys + {Key(u)};
    MarkLosesOnlySmallest(cache, u, Key(u));
    LessIrreflexive(Key(u));
    assert Below(keys, Key(u)) == Below(cache.Keys, Key(u));
    if Key(u) in cache {
      assert keys == cache.Keys;
    } else {
      assert |keys| == |cache.Keys| + 1;
    }
  }
}
