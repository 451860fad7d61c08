/**
 The hash chain: entry digests, the checker the finalizer runs, and what the checker
 guarantees. SHA-256 and the RFC 8785 canonicalizer are parameters; nothing is assumed of
 SHA-256 beyond its output length.
 */
module EvidenceChain {
  import opened Prelude
  import opened Bytes
  import opened Events

  /** `canonical` is None where the RFC 8785 library raises. */
  datatype Crypto = Crypto(sha256: seq<byte> -> Bytes32, canonical: Event -> Option<seq<byte>>)

  datatype DigestError = NotCanonical | NotHexadecimal | SequenceOverflow

  datatype Completeness = Complete | Incomplete | Unknown

  /** `sequence` is any integer: a snapshot handed to the checker can hold anything. */
  datatype Entry = Entry(sequence: int, eventId: string, previousDigest: Option<string>, digest: string, event: Event)

  datatype Snapshot = Snapshot(runId: string, entries: seq<Entry>, chainDigest: Option<string>,
                               profile: string, completeness: Completeness, sealed: bool)

  const PROFILE := "rfc8785-jcs-v1"
  /** The 32 zero bytes that precede the first entry. */
  function Genesis(): Bytes32 { seq(32, i => 0 as byte) }

  /** The 32 bytes that stand for the previous entry. */
  function PreviousBytes(previous: Option<string>): Option<seq<byte>> {
    if previous.Some? && previous.value != "" then FromHex(previous.value) else Some(Genesis())
  }

  function Material(previous: seq<byte>, sequence: nat, canonical: seq<byte>): seq<byte> {
    previous + BigEndian(sequence, 8) + canonical
  }

  function EntryDigest(c: Crypto, sequence: nat, previous: Option<string>, event: Event): Result<string, DigestError> {
    var canonical := c.canonical(event);
    var bytes := PreviousBytes(previous);
    if canonical.None? then Err(NotCanonical)
    else if bytes.None? then Err(NotHexadecimal)
    else if sequence >= TWO_POW_64 then Err(SequenceOverflow)
    else Ok(Hex(c.sha256(Material(bytes.value, sequence, canonical.value))))
  }

  function LastDigest(entries: seq<Entry>): Option<string> {
    if entries == [] then None else Some(entries[|entries| - 1].digest)
  }

  function EventsOf(entries: seq<Entry>): (events: seq<Event>)
    ensures |events| == |entries|
    ensures forall i :: 0 <= i < |entries| ==> events[i] == entries[i].event
  {
    Map((e: Entry) => e.event, entries)
  }

  // ---- the checker -------------------------------------------------------------------------

  /** What the checker demands of the entry at `position`. */
  ghost predicate Linked(c: Crypto, runId: string, entries: seq<Entry>, position: nat)
    requires position < |entries|
  {
    var entry := entries[position];
    && entry.sequence == position
    && entry.previousDigest == LastDigest(entries[..position])
    && EntryDigest(c, position, entry.previousDigest, entry.event) == Ok(entry.digest)
    && entry.eventId == entry.event.id
    && entry.event.runId == runId
  }

  ghost predicate Chain(c: Crypto, runId: string, entries: seq<Entry>) {
    forall i :: 0 <= i < |entries| ==> Linked(c, runId, entries, i)
  }

  ghost predicate Verified(c: Crypto, s: Snapshot) {
    && s.profile == PROFILE
    && Chain(c, s.runId, s.entries)
    && s.chainDigest == LastDigest(s.entries)
  }

  datatype ChainError = UnsupportedProfile | BrokenAt(position: nat) | OverflowAt(position: nat) | ChainDigestMismatch

  /**
   `_verify_chain`: the previous digest handed to the next step is the recomputed one, never
   the one the entry claims.
   */
  method VerifyChain(c: Crypto, s: Snapshot) returns (r: Result<(), ChainError>)
    ensures r.Ok? <==> Verified(c, s)
    ensures r.Err? && r.error.BrokenAt? ==>
      r.error.position < |s.entries|
      && Chain(c, s.runId, s.entries[..r.error.position])
      && !Linked(c, s.runId, s.entries, r.error.position)
    ensures r == Err(UnsupportedProfile) <==> s.profile != "rfc8785-jcs-v1"
  {
    if s.profile != PROFILE {
      return Err(UnsupportedProfile);
    }
    var previous: Option<string> := None;
    for position := 0 to |s.entries|
      invariant forall i :: 0 <= i < position ==> Linked(c, s.runId, s.entries, i)
      invariant previous == LastDigest(s.entries[..position])
    {
      var entry := s.entries[position];
      assert Chain(c, s.runId, s.entries[..position]) by {
        PrefixChain(c, s.runId, s.entries, position);
      }
      var recomputed := EntryDigest(c, position, previous, entry.event);
      assert Linked(c, s.runId, s.entries, position) ==> recomputed == Ok(entry.digest);
      if recomputed == Err(SequenceOverflow) {
        return Err(OverflowAt(position));
      }
      if recomputed.Err? {
        return Err(BrokenAt(position));
      }
      if entry.sequence != position || entry.previousDigest != previous || entry.digest != recomputed.value
         || entry.eventId != entry.event.id || entry.event.runId != s.runId {
        return Err(BrokenAt(position));
      }
      previous := Some(recomputed.value);
    }
    assert s.entries[..|s.entries|] == s.entries;
    if s.chainDigest != previous {
      return Err(ChainDigestMismatch);
    }
    return Ok(());
  }

  lemma PrefixChain(c: Crypto, runId: string, entries: seq<Entry>, n: nat)
    requires n <= |entries|
    requires forall i :: 0 <= i < n ==> Linked(c, runId, entries, i)
    ensures Chain(c, runId, entries[..n])
  {
    forall i | 0 <= i < n ensures Linked(c, runId, entries[..n], i) {
      assert entries[..n][..i] == entries[..i];
      assert Linked(c, runId, entries, i);
    }
  }

  // ---- the builder, independent of the checker ----------------------------------------------

  /** `entries` with one more entry, correctly digested. */
  function Extend(c: Crypto, entries: seq<Entry>, event: Event): (r: Option<seq<Entry>>)
    ensures r.Some? ==> |r.value| == |entries| + 1
  {
    match EntryDigest(c, |entries|, LastDigest(entries), event)
    case Err(_) => None
    case Ok(digest) => Some(entries + [Entry(|entries|, event.id, LastDigest(entries), digest, event)])
  }

  /** The one chain that accepting `events` in order produces, if every digest exists. */
  function Chained(c: Crypto, events: seq<Event>): (entries: Option<seq<Entry>>)
    ensures entries.Some? ==> |entries.value| == |events|
  {
    if events == [] then Some([])
    else
      match Chained(c, events[..|events| - 1])
      case None => None
      case Some(prefix) => Extend(c, prefix, events[|events| - 1])
  }

  /** Extending a chain by a correctly digested entry gives a chain. */
  lemma ExtendChain(c: Crypto, runId: string, entries: seq<Entry>, event: Event, digest: string)
    requires Chain(c, runId, entries)
    requires event.runId == runId
    requires EntryDigest(c, |entries|, LastDigest(entries), event) == Ok(digest)
    ensures Chain(c, runId, entries + [Entry(|entries|, event.id, LastDigest(entries), digest, event)])
  {
    var longer := entries + [Entry(|entries|, event.id, LastDigest(entries), digest, event)];
    forall i | 0 <= i < |longer| ensures Linked(c, runId, longer, i) {
      if i < |entries| {
        assert longer[..i] == entries[..i];
        assert Linked(c, runId, entries, i);
      } else {
        assert longer[..i] == entries;
      }
    }
  }

  lemma {:induction false} ChainIsChained(c: Crypto, runId: string, entries: seq<Entry>)
    requires Chain(c, runId, entries)
    ensures Chained(c, EventsOf(entries)) == Some(entries)
    decreases |entries|
  {
    if entries != [] {
      var n := |entries| - 1;
      PrefixChain(c, runId, entries, n);
      ChainIsChained(c, runId, entries[..n]);
      assert Extend(c, entries[..n], entries[n].event) == Some(entries) by {
        assert Linked(c, runId, entries, n);
        assert entries == entries[..n] + [entries[n]];
      }
      assert EventsOf(entries)[..n] == EventsOf(entries[..n]);
    }
  }

  lemma {:induction false} ChainedIsChain(c: Crypto, runId: string, entries: seq<Entry>)
    requires Chained(c, EventsOf(entries)) == Some(entries)
    requires forall i :: 0 <= i < |entries| ==> entries[i].event.runId == runId
    ensures Chain(c, runId, entries)
    decreases |entries|
  {
    if entries != [] {
      var n := |entries| - 1;
      assert EventsOf(entries)[..n] == EventsOf(entries[..n]);
      var prefix := Chained(c, EventsOf(entries[..n])).value;
      assert Extend(c, prefix, entries[n].event) == Some(entries);
      assert prefix == entries[..n];
      ChainedIsChain(c, runId, prefix);
      ExtendChain(c, runId, prefix, entries[n].event, entries[n].digest);
    }
  }

  /** The checker accepts exactly what the builder makes out of the events of one run. */
  lemma VerifiedIffRebuilt(c: Crypto, s: Snapshot)
    ensures Verified(c, s) <==>
      && s.profile == PROFILE
      && (forall i :: 0 <= i < |s.entries| ==> s.entries[i].event.runId == s.runId)
      && Chained(c, EventsOf(s.entries)) == Some(s.entries)
      && s.chainDigest == LastDigest(s.entries)
  {
    if Chain(c, s.runId, s.entries) {
      ChainIsChained(c, s.runId, s.entries);
      forall i | 0 <= i < |s.entries| ensures s.entries[i].event.runId == s.runId {
        assert Linked(c, s.runId, s.entries, i);
      }
    } else if (forall i :: 0 <= i < |s.entries| ==> s.entries[i].event.runId == s.runId)
           && Chained(c, EventsOf(s.entries)) == Some(s.entries) {
      ChainedIsChain(c, s.runId, s.entries);
    }
  }

  // ---- tamper evidence ----------------------------------------------------------------------

  ghost predicate Collision(c: Crypto, x: seq<byte>, y: seq<byte>) {
    x != y && c.sha256(x) == c.sha256(y)
  }

  function CanonicalBytes(c: Crypto, event: Event): seq<byte> {
    c.canonical(event).GetOr([])
  }

  /** What the entry at position `i` was hashed from. */
  function MaterialAt(c: Crypto, entries: seq<Entry>, i: nat): seq<byte>
    requires i < |entries|
  {
    Material(PreviousBytes(entries[i].previousDigest).GetOr([]), i, CanonicalBytes(c, entries[i].event))
  }

  /** Walk two chains back from their ends until the hashed materials differ. */
  function FindCollision(c: Crypto, a: seq<Entry>, b: seq<Entry>): Option<(seq<byte>, seq<byte>)>
    decreases |a|
  {
    if a == [] || b == [] then None
    else
      var x, y := MaterialAt(c, a, |a| - 1), MaterialAt(c, b, |b| - 1);
      if x != y then Some((x, y)) else FindCollision(c, a[..|a| - 1], b[..|b| - 1])
  }

  lemma DigestOfChain(c: Crypto, runId: string, entries: seq<Entry>, i: nat)
    requires Chain(c, runId, entries) && i < |entries|
    ensures PreviousBytes(entries[i].previousDigest).Some?
    ensures c.canonical(entries[i].event).Some? && i < TWO_POW_64
    ensures entries[i].digest == Hex(c.sha256(MaterialAt(c, entries, i)))
  {
    assert Linked(c, runId, entries, i);
  }

  /** A stored digest spells out 32 bytes. */
  lemma DigestSpells(c: Crypto, runId: string, entries: seq<Entry>, i: nat)
    requires Chain(c, runId, entries) && i < |entries|
    ensures PreviousBytes(Some(entries[i].digest)) == Some(c.sha256(MaterialAt(c, entries, i)))
  {
    DigestOfChain(c, runId, entries, i);
    HexRoundTrip(c.sha256(MaterialAt(c, entries, i)));
  }

  lemma PreviousDigestOfChain(c: Crypto, runId: string, entries: seq<Entry>, i: nat)
    requires Chain(c, runId, entries) && i < |entries|
    ensures entries[i].previousDigest == if i == 0 then None else Some(entries[i - 1].digest)
  {
    assert Linked(c, runId, entries, i);
    if i > 0 {
      assert entries[..i][i - 1] == entries[i - 1];
    }
  }

  /** The previous bytes of an entry are the 32 bytes its predecessor's digest spells out. */
  lemma PreviousOfChain(c: Crypto, runId: string, entries: seq<Entry>, i: nat)
    requires Chain(c, runId, entries) && i < |entries|
    ensures |PreviousBytes(entries[i].previousDigest).GetOr([])| == 32
    ensures entries[i].previousDigest == if i == 0 then None else Some(entries[i - 1].digest)
    ensures i > 0 ==> entries[i].previousDigest == Some(Hex(PreviousBytes(entries[i].previousDigest).GetOr([])))
  {
    PreviousDigestOfChain(c, runId, entries, i);
    if i > 0 {
      DigestSpells(c, runId, entries, i - 1);
      DigestOfChain(c, runId, entries, i - 1);
    }
  }

  /** The first entry's digest covers forty zero bytes, then its canonical bytes. */
  lemma FirstDigest(c: Crypto, runId: string, entries: seq<Entry>)
    requires Chain(c, runId, entries) && entries != []
    ensures c.canonical(entries[0].event).Some?
    ensures entries[0].previousDigest == None && entries[0].sequence == 0
    ensures entries[0].digest == Hex(c.sha256(seq(40, i => 0 as byte) + c.canonical(entries[0].event).value))
  {
    DigestOfChain(c, runId, entries, 0);
    PreviousDigestOfChain(c, runId, entries, 0);
    assert Linked(c, runId, entries, 0);
    ZeroBytes(8);
    assert Material(seq(32, i => 0 as byte), 0, c.canonical(entries[0].event).value)
        == seq(40, i => 0 as byte) + c.canonical(entries[0].event).value;
  }

  lemma {:induction false} ZeroBytes(width: nat)
    ensures BigEndian(0, width) == seq(width, i => 0 as byte)
  {
    if width > 0 {
      ZeroBytes(width - 1);
    }
  }

  /** Every later digest covers the 32 bytes of the one before, eight bytes of position, and the canonical bytes. */
  lemma LaterDigest(c: Crypto, runId: string, entries: seq<Entry>, i: nat) returns (previous: seq<byte>)
    requires Chain(c, runId, entries) && 0 < i < |entries|
    ensures c.canonical(entries[i].event).Some?
    ensures |previous| == 32 && entries[i - 1].digest == Hex(previous)
    ensures entries[i].previousDigest == Some(entries[i - 1].digest) && entries[i].sequence == i
    ensures entries[i].digest == Hex(c.sha256(previous + BigEndian(i, 8) + c.canonical(entries[i].event).value))
  {
    DigestOfChain(c, runId, entries, i);
    PreviousOfChain(c, runId, entries, i);
    assert Linked(c, runId, entries, i);
    previous := PreviousBytes(entries[i].previousDigest).GetOr([]);
  }

  /** Equal materials have equal parts: the first forty bytes have fixed width. */
  lemma MaterialParts(p: seq<byte>, q: seq<byte>, m: nat, n: nat, x: seq<byte>, y: seq<byte>)
    requires |p| == |q| == 32 && m < TWO_POW_64 && n < TWO_POW_64
    requires Material(p, m, x) == Material(q, n, y)
    ensures p == q && m == n && x == y
  {
    var s, t := Material(p, m, x), Material(q, n, y);
    assert p == s[..32] && q == t[..32];
    assert BigEndian(m, 8) == s[32..40] && BigEndian(n, 8) == t[32..40];
    assert x == s[40..] && y == t[40..];
    BigEndian64Injective(m, n);
  }

  ghost predicate SameContent(c: Crypto, a: seq<Entry>, b: seq<Entry>) {
    && |a| == |b|
    && forall i :: 0 <= i < |a| ==>
      && c.canonical(a[i].event) == c.canonical(b[i].event)
      && a[i].digest == b[i].digest && a[i].previousDigest == b[i].previousDigest && a[i].sequence == b[i].sequence
  }

  /**
   Two chains that end in the same digest either have the same length and the same canonical
   bytes everywhere, or `FindCollision` returns two different inputs with one SHA-256 value.
   */
  lemma {:induction false} TamperEvident(c: Crypto, runA: string, a: seq<Entry>, runB: string, b: seq<Entry>)
    requires Chain(c, runA, a) && Chain(c, runB, b)
    requires LastDigest(a) == LastDigest(b)
    ensures match FindCollision(c, a, b)
            case Some((x, y)) => Collision(c, x, y)
            case None => SameContent(c, a, b)
    decreases |a|
  {
    if a != [] {
      var m, n := |a| - 1, |b| - 1;
      LastEntries(c, runA, a, runB, b);
      if MaterialAt(c, a, m) == MaterialAt(c, b, n) {
        assert a[..m] == [] <==> b[..n] == [];
        PrefixChain(c, runA, a, m);
        PrefixChain(c, runB, b, n);
        TamperEvident(c, runA, a[..m], runB, b[..n]);
        if FindCollision(c, a[..m], b[..n]).None? {
          SameContentNext(c, a, b);
        }
      }
    }
  }

  lemma SameContentNext(c: Crypto, a: seq<Entry>, b: seq<Entry>)
    requires |a| == |b| > 0
    requires var m := |a| - 1;
             && SameContent(c, a[..m], b[..m])
             && c.canonical(a[m].event) == c.canonical(b[m].event)
             && a[m].digest == b[m].digest && a[m].previousDigest == b[m].previousDigest && a[m].sequence == b[m].sequence
    ensures SameContent(c, a, b)
  {
    var m := |a| - 1;
    forall i | 0 <= i < m
      ensures c.canonical(a[i].event) == c.canonical(b[i].event)
      ensures a[i].digest == b[i].digest && a[i].previousDigest == b[i].previousDigest && a[i].sequence == b[i].sequence
    {
      assert a[i] == a[..m][i] && b[i] == b[..m][i];
    }
  }

  lemma LastEntries(c: Crypto, runA: string, a: seq<Entry>, runB: string, b: seq<Entry>)
    requires Chain(c, runA, a) && Chain(c, runB, b)
    requires a != [] && b != [] && LastDigest(a) == LastDigest(b)
    ensures var x, y := MaterialAt(c, a, |a| - 1), MaterialAt(c, b, |b| - 1);
            if x != y then Collision(c, x, y)
            else
              && |a| == |b|
              && c.canonical(a[|a| - 1].event) == c.canonical(b[|b| - 1].event)
              && a[|a| - 1].previousDigest == b[|b| - 1].previousDigest
              && a[|a| - 1].sequence == b[|b| - 1].sequence
              && LastDigest(a[..|a| - 1]) == LastDigest(b[..|b| - 1])
  {
    var m, n := |a| - 1, |b| - 1;
    var x, y := MaterialAt(c, a, m), MaterialAt(c, b, n);
    DigestOfChain(c, runA, a, m);
    DigestOfChain(c, runB, b, n);
    HexInjective(c.sha256(x), c.sha256(y));
    if x == y {
      PreviousOfChain(c, runA, a, m);
      PreviousOfChain(c, runB, b, n);
      MaterialParts(PreviousBytes(a[m].previousDigest).GetOr([]), PreviousBytes(b[n].previousDigest).GetOr([]),
                    m, n, CanonicalBytes(c, a[m].event), CanonicalBytes(c, b[n].event));
      assert Linked(c, runA, a, m) && Linked(c, runB, b, n);
    }
  }

  /** RFC 8785 text determines the event. */
  ghost predicate CanonicalInjective(c: Crypto) {
    forall e, f :: c.canonical(e).Some? && c.canonical(e) == c.canonical(f) ==> e == f
  }

  /**
   The same for two snapshots: an edited, dropped, inserted or reordered entry that still
   verifies under the same chain digest exhibits a SHA-256 collision.
   */
  lemma AlteredSnapshotCollides(c: Crypto, s: Snapshot, t: Snapshot)
    requires CanonicalInjective(c)
    requires Verified(c, s) && Verified(c, t)
    requires s.chainDigest == t.chainDigest
    requires s.entries != t.entries
    ensures FindCollision(c, s.entries, t.entries).Some?
    ensures var pair := FindCollision(c, s.entries, t.entries).value; Collision(c, pair.0, pair.1)
  {
    TamperEvident(c, s.runId, s.entries, t.runId, t.entries);
    if FindCollision(c, s.entries, t.entries).None? {
      forall i | 0 <= i < |s.entries| ensures s.entries[i] == t.entries[i] {
        assert Linked(c, s.runId, s.entries, i) && Linked(c, t.runId, t.entries, i);
      }
    }
  }
}
