/**
 The tamper-evident audit log: each entry's hash covers the previous hash and,
 with their lengths, the entry's action, subject and metadata.

 The digest is a parameter. A digest with outputs of one length cannot be
 injective, so the security statements below do not assume that it is: they say
 that two logs agree, or else exhibit two different messages with one digest.
 */
module AuditChain {
  type Byte = b: int | 0 <= b < 256
  type Bytes = seq<Byte>
  type Digest = Bytes -> Bytes

  const DIGEST_LENGTH: nat := 32
  const LENGTH_BYTES: nat := 8

  /** What an entry is about; `actor` and `tenant` are stored beside it and not hashed. */
  datatype Content = Content(action: Bytes, subject: Bytes, metadata: Bytes)

  datatype Entry = Entry(id: nat, actor: nat, tenant: nat, content: Content, prevHash: Bytes, entryHash: Bytes)

  ghost predicate FixedLength(h: Digest) {
    forall m :: |h(m)| == DIGEST_LENGTH
  }

  /** The low `width` bytes of n, most significant first. */
  function BigEndian(n: nat, width: nat): (r: Bytes)
    ensures |r| == width
  {
    if width == 0 then [] else BigEndian(n / 256, width - 1) + [n % 256]
  }

  function Field(f: Bytes): Bytes {
    BigEndian(|f|, LENGTH_BYTES) + f
  }

  function Message(prev: Bytes, c: Content): Bytes {
    prev + Field(c.action) + Field(c.subject) + Field(c.metadata)
  }

  /** The bytes that are hashed: the predecessor, then each field behind its length in eight bytes. */
  lemma MessageIs(prev: Bytes, c: Content)
    ensures Message(prev, c)
         == prev + BigEndian(|c.action|, 8) + c.action + BigEndian(|c.subject|, 8) + c.subject
            + BigEndian(|c.metadata|, 8) + c.metadata
  {
  }

  /** Writes the message to the digest piece by piece. */
  method ChainHash(h: Digest, prev: Bytes, c: Content) returns (sum: Bytes)
    ensures sum == h(prev + BigEndian(|c.action|, 8) + c.action + BigEndian(|c.subject|, 8) + c.subject
                     + BigEndian(|c.metadata|, 8) + c.metadata)
    ensures sum == h(Message(prev, c))
  {
    var fields := [c.action, c.subject, c.metadata];
    var written := prev;
    for i := 0 to |fields|
      invariant i == 0 ==> written == prev
      invariant i == 1 ==> written == prev + Field(c.action)
      invariant i == 2 ==> written == prev + Field(c.action) + Field(c.subject)
      invariant i == 3 ==> written == Message(prev, c)
    {
      var n := BigEndian(|fields[i]|, LENGTH_BYTES);
      assert written + n + fields[i] == written + Field(fields[i]);
      written := written + n + fields[i];
    }
    MessageIs(prev, c);
    sum := h(written);
  }

  // ---------------------------------------------------------------- the log

  /** The digest entry i was chained to: its predecessor's, or none. */
  function Predecessor(log: seq<Entry>, i: nat): Bytes
    requires i <= |log|
  {
    if i == 0 then [] else log[i - 1].entryHash
  }

  predicate Consistent(h: Digest, log: seq<Entry>, i: nat)
    requires i < |log|
  {
    log[i].entryHash == h(Message(Predecessor(log, i), log[i].content))
  }

  predicate Intact(h: Digest, log: seq<Entry>) {
    forall i :: 0 <= i < |log| ==> Consistent(h, log, i)
  }

  /** Ids come from a sequence that starts at one. */
  predicate RealIds(log: seq<Entry>) {
    forall i :: 0 <= i < |log| ==> log[i].id > 0
  }

  /** Entry i is the first one that does not match. */
  predicate FirstBad(h: Digest, log: seq<Entry>, i: nat) {
    i < |log| && !Consistent(h, log, i) && forall j :: 0 <= j < i ==> Consistent(h, log, j)
  }

  lemma BeforeTheFirstBad(h: Digest, log: seq<Entry>, i: nat, j: nat)
    requires FirstBad(h, log, j) && i < j
    ensures Consistent(h, log, i)
  {
  }

  /** A log has one first bad entry at most, and an intact log has none. */
  lemma FirstBadIsUnique(h: Digest, log: seq<Entry>, i: nat, j: nat)
    requires FirstBad(h, log, i) && FirstBad(h, log, j)
    ensures i == j && !Intact(h, log)
  {
    if i < j {
      BeforeTheFirstBad(h, log, i, j);
    } else if j < i {
      BeforeTheFirstBad(h, log, j, i);
    }
  }

  method VerifyChain(h: Digest, entries: seq<Entry>) returns (bad: nat)
    requires RealIds(entries)
    ensures bad == 0 <==> Intact(h, entries)
    ensures bad != 0 ==> exists i :: 0 <= i < |entries| && FirstBad(h, entries, i) && entries[i].id == bad
  {
    var prev: Bytes := [];
    for i := 0 to |entries|
      invariant prev == Predecessor(entries, i)
      invariant forall j :: 0 <= j < i ==> Consistent(h, entries, j)
    {
      var want := ChainHash(h, prev, entries[i].content);
      if want != entries[i].entryHash {
        assert FirstBad(h, entries, i);
        return entries[i].id;
      }
      prev := entries[i].entryHash;
    }
    bad := 0;
  }

  /** prev_hash repeats the predecessor's digest. */
  predicate LinkedAt(log: seq<Entry>, i: nat)
    requires i < |log|
  {
    log[i].id > 0 && log[i].prevHash == Predecessor(log, i)
  }

  predicate Linked(log: seq<Entry>) {
    forall i :: 0 <= i < |log| ==> LinkedAt(log, i)
  }

  datatype Event = Event(actor: nat, tenant: nat, content: Content)

  /** The entry Append writes after `log`. */
  function Chained(h: Digest, log: seq<Entry>, id: nat, e: Event): Entry {
    var prev := Predecessor(log, |log|);
    Entry(id, e.actor, e.tenant, e.content, prev, h(Message(prev, e.content)))
  }

  class Auditor {
    const h: Digest
    var log: seq<Entry>
    var lastId: nat

    ghost predicate Valid()
      reads this
    {
      Intact(h, log) && Linked(log)
    }

    constructor (h: Digest)
      ensures this.h == h && log == [] && lastId == 0 && Valid()
    {
      this.h, log, lastId := h, [], 0;
    }

    /** Runs under the audit lock, so the last entry is still the last when the new one is inserted. */
    method Append(e: Event)
      requires Valid()
      modifies this
      ensures Valid()
      ensures log == old(log) + [Chained(h, old(log), lastId, e)] && lastId == old(lastId) + 1
      ensures var prev := if |old(log)| == 0 then [] else old(log)[|old(log)| - 1].entryHash;
              log[|log| - 1] == Entry(lastId, e.actor, e.tenant, e.content, prev, h(Message(prev, e.content)))
    {
      var prev: Bytes := if |log| == 0 then [] else log[|log| - 1].entryHash;
      var sum := ChainHash(h, prev, e.content);
      AppendKeepsValid(h, log, lastId + 1, e);
      lastId := lastId + 1;
      var entry := Entry(lastId, e.actor, e.tenant, e.content, prev, sum);
      assert entry == Chained(h, log, lastId, e);
      log := log + [entry];
    }
  }

  lemma AppendKeepsValid(h: Digest, log: seq<Entry>, id: nat, e: Event)
    requires Intact(h, log) && Linked(log) && id > 0
    ensures Intact(h, log + [Chained(h, log, id, e)]) && Linked(log + [Chained(h, log, id, e)])
  {
    var longer := log + [Chained(h, log, id, e)];
    forall i | 0 <= i < |longer|
      ensures Consistent(h, longer, i) && LinkedAt(longer, i)
    {
      if i < |log| {
        assert Consistent(h, log, i) && LinkedAt(log, i);
      }
    }
  }

  /** Cutting entries off the end leaves a log that verifies: truncation is not what the chain detects. */
  lemma TruncationGoesUnnoticed(h: Digest, log: seq<Entry>, n: nat)
    requires Intact(h, log) && n <= |log|
    ensures Intact(h, log[..n])
  {
    forall i | 0 <= i < n
      ensures Consistent(h, log[..n], i)
    {
      assert Consistent(h, log, i);
    }
  }

  /** Nor are the columns the digest does not cover: who did it, for which tenant, and the stored prev_hash. */
  lemma UnhashedColumnsGoUnnoticed(h: Digest, log: seq<Entry>, other: seq<Entry>)
    requires |other| == |log|
    requires forall i :: 0 <= i < |log| ==> other[i].content == log[i].content && other[i].entryHash == log[i].entryHash
    ensures Intact(h, other) <==> Intact(h, log)
  {
    assert forall i :: 0 <= i < |log| ==> (Consistent(h, other, i) <==> Consistent(h, log, i));
  }

  // ---------------------------------------------------------------- framing

  function Power(width: nat): nat {
    if width == 0 then 1 else 256 * Power(width - 1)
  }

  lemma {:induction false} BigEndianIsInjective(m: nat, n: nat, width: nat)
    requires m < Power(width) && n < Power(width) && BigEndian(m, width) == BigEndian(n, width)
    ensures m == n
  {
    if width > 0 {
      var a, b := BigEndian(m / 256, width - 1), BigEndian(n / 256, width - 1);
      assert BigEndian(m, width)[..width - 1] == a && BigEndian(n, width)[..width - 1] == b;
      assert BigEndian(m, width)[width - 1] == m % 256 && BigEndian(n, width)[width - 1] == n % 256;
      BigEndianIsInjective(m / 256, n / 256, width - 1);
    }
  }

  /** The number that bytes spell, the first the most significant. */
  function Spelled(b: Bytes): nat {
    if |b| == 0 then 0 else Spelled(b[..|b| - 1]) * 256 + b[|b| - 1]
  }

  /** A length that fits is written so that it can be read back. */
  lemma {:induction false} LengthsReadBack(n: nat, width: nat)
    requires n < Power(width)
    ensures |BigEndian(n, width)| == width && Spelled(BigEndian(n, width)) == n
  {
    if width > 0 {
      assert n / 256 < Power(width - 1);
      LengthsReadBack(n / 256, width - 1);
      assert BigEndian(n, width)[..width - 1] == BigEndian(n / 256, width - 1);
    }
  }

  /** Go slices are shorter than 2^64. */
  predicate Fits(f: Bytes) {
    |f| < Power(LENGTH_BYTES)
  }

  predicate ContentFits(c: Content) {
    Fits(c.action) && Fits(c.subject) && Fits(c.metadata)
  }

  lemma FieldIsPrefixFree(f: Bytes, g: Bytes, x: Bytes, y: Bytes)
    requires Fits(f) && Fits(g) && Field(f) + x == Field(g) + y
    ensures f == g && x == y
  {
    var left, right := Field(f) + x, Field(g) + y;
    assert left[..LENGTH_BYTES] == BigEndian(|f|, LENGTH_BYTES)
        && right[..LENGTH_BYTES] == BigEndian(|g|, LENGTH_BYTES);
    BigEndianIsInjective(|f|, |g|, LENGTH_BYTES);
    assert left[LENGTH_BYTES..LENGTH_BYTES + |f|] == f && right[LENGTH_BYTES..LENGTH_BYTES + |g|] == g;
    assert left[LENGTH_BYTES + |f|..] == x && right[LENGTH_BYTES + |g|..] == y;
  }

  /** A message, bracketed so that one field can be split off at a time. */
  lemma MessageParts(p: Bytes, c: Content)
    ensures Message(p, c) == p + (Field(c.action) + (Field(c.subject) + Field(c.metadata)))
  {
  }

  lemma SplitPredecessor(p: Bytes, q: Bytes, x: Bytes, y: Bytes)
    requires |p| == |q| && p + x == q + y
    ensures p == q && x == y
  {
    assert (p + x)[..|p|] == p && (q + y)[..|q|] == q;
    assert (p + x)[|p|..] == x && (q + y)[|q|..] == y;
  }

  lemma FieldIsInjective(f: Bytes, g: Bytes)
    requires Fits(f) && Fits(g) && Field(f) == Field(g)
    ensures f == g
  {
    assert Field(f) + [] == Field(f) && Field(g) + [] == Field(g);
    FieldIsPrefixFree(f, g, [], []);
  }

  /** Different contents, or different predecessors of one length, give different messages. */
  lemma MessageIsInjective(p: Bytes, q: Bytes, c: Content, d: Content)
    requires |p| == |q| && ContentFits(c) && ContentFits(d)
    ensures Message(p, c) == Message(q, d) <==> p == q && c == d
  {
    if Message(p, c) == Message(q, d) {
      MessageParts(p, c);
      MessageParts(q, d);
      var x, y := Field(c.subject) + Field(c.metadata), Field(d.subject) + Field(d.metadata);
      SplitPredecessor(p, q, Field(c.action) + x, Field(d.action) + y);
      FieldIsPrefixFree(c.action, d.action, x, y);
      FieldIsPrefixFree(c.subject, d.subject, Field(c.metadata), Field(d.metadata));
      FieldIsInjective(c.metadata, d.metadata);
    }
  }

  // ---------------------------------------------------------------- tamper evidence

  predicate AllFit(log: seq<Entry>) {
    forall i :: 0 <= i < |log| ==> ContentFits(log[i].content)
  }

  function MessageAt(log: seq<Entry>, i: nat): Bytes
    requires i < |log|
  {
    Message(Predecessor(log, i), log[i].content)
  }

  /** At position i the two logs hash different messages to one digest. */
  predicate CollideAt(h: Digest, a: seq<Entry>, b: seq<Entry>, i: nat) {
    i < |a| && i < |b| && MessageAt(a, i) != MessageAt(b, i) && h(MessageAt(a, i)) == h(MessageAt(b, i))
  }

  predicate Agree(a: seq<Entry>, b: seq<Entry>) {
    |a| == |b| && forall i :: 0 <= i < |a| ==> a[i].content == b[i].content && a[i].entryHash == b[i].entryHash
  }

  lemma PredecessorLengths(h: Digest, a: seq<Entry>, b: seq<Entry>, i: nat)
    requires FixedLength(h) && Intact(h, a) && Intact(h, b) && i < |a| == |b|
    ensures |Predecessor(a, i)| == |Predecessor(b, i)|
  {
    if i > 0 {
      assert Consistent(h, a, i - 1) && Consistent(h, b, i - 1);
    }
  }

  /** Two entries with one digest agree, and so do their predecessors, unless they collide. */
  lemma LinkAgrees(h: Digest, a: seq<Entry>, b: seq<Entry>, n: nat)
    requires FixedLength(h) && Intact(h, a) && Intact(h, b) && AllFit(a) && AllFit(b)
    requires n < |a| == |b| && a[n].entryHash == b[n].entryHash
    ensures CollideAt(h, a, b, n) || (Predecessor(a, n) == Predecessor(b, n) && a[n].content == b[n].content)
  {
    assert Consistent(h, a, n) && Consistent(h, b, n);
    PredecessorLengths(h, a, b, n);
    MessageIsInjective(Predecessor(a, n), Predecessor(b, n), a[n].content, b[n].content);
  }

  lemma CollisionsStay(h: Digest, a: seq<Entry>, b: seq<Entry>, n: nat, i: nat)
    requires n <= |a| && n <= |b| && CollideAt(h, a[..n], b[..n], i)
    ensures CollideAt(h, a, b, i)
  {
    assert MessageAt(a[..n], i) == MessageAt(a, i) && MessageAt(b[..n], i) == MessageAt(b, i);
  }

  /**
   Main theorem. Two verifying logs of one length with the same last digest agree
   on every action, subject and metadata, unless they exhibit a collision of the
   digest.
   */
  lemma {:induction false} LastDigestFixesTheLog(h: Digest, a: seq<Entry>, b: seq<Entry>)
    requires FixedLength(h) && Intact(h, a) && Intact(h, b) && AllFit(a) && AllFit(b)
    requires |a| == |b| && Predecessor(a, |a|) == Predecessor(b, |b|)
    ensures Agree(a, b) || exists i: nat :: CollideAt(h, a, b, i)
    decreases |a|
  {
    if |a| > 0 {
      var n := |a| - 1;
      LinkAgrees(h, a, b, n);
      if !CollideAt(h, a, b, n) {
        TruncationGoesUnnoticed(h, a, n);
        TruncationGoesUnnoticed(h, b, n);
        LastDigestFixesTheLog(h, a[..n], b[..n]);
        if i: nat :| CollideAt(h, a[..n], b[..n], i) {
          CollisionsStay(h, a, b, n, i);
        }
      }
    }
  }

  /** Changing the content of one entry is found at that very entry, unless the new message collides with the old. */
  lemma EditsAreLocated(h: Digest, log: seq<Entry>, k: nat, c: Content)
    requires Intact(h, log) && AllFit(log) && ContentFits(c) && k < |log| && c != log[k].content
    ensures var edited := log[k := log[k].(content := c)];
            if CollideAt(h, log, edited, k) then Intact(h, edited) else FirstBad(h, edited, k)
  {
    var edited := log[k := log[k].(content := c)];
    assert forall i :: 0 <= i <= |log| ==> Predecessor(edited, i) == Predecessor(log, i);
    assert forall i :: 0 <= i < |log| && i != k ==> edited[i] == log[i];
    assert forall i :: 0 <= i < |log| && i != k && Consistent(h, log, i) ==> Consistent(h, edited, i);
    MessageIsInjective(Predecessor(log, k), Predecessor(log, k), log[k].content, c);
    assert Consistent(h, log, k);
  }

  /**
   Cutting an entry out of the middle is found at the entry that followed it, unless
   the two messages that entry is checked against have one digest. They are the same
   message exactly when the entry cut out has the digest of its predecessor.
   */
  lemma DeletionsAreLocated(h: Digest, log: seq<Entry>, k: nat)
    requires FixedLength(h) && Intact(h, log) && AllFit(log) && k + 1 < |log|
    ensures var cut := log[..k] + log[k + 1..];
            var before, after := MessageAt(log, k + 1), MessageAt(cut, k);
            && (before == after <==> log[k].entryHash == Predecessor(log, k))
            && if h(before) == h(after) then Intact(h, cut) else FirstBad(h, cut, k)
  {
    var cut := log[..k] + log[k + 1..];
    assert forall i :: 0 <= i < |cut| ==> cut[i] == if i < k then log[i] else log[i + 1];
    forall i | 0 <= i < |cut| && i != k
      ensures Consistent(h, cut, i)
    {
      assert if i < k then Consistent(h, log, i) else Consistent(h, log, i + 1);
    }
    assert Consistent(h, log, k + 1) && Consistent(h, log, k);
    if k == 0 {
      assert |MessageAt(log, 1)| == |MessageAt(cut, 0)| + DIGEST_LENGTH;
    } else {
      assert Consistent(h, log, k - 1);
      MessageIsInjective(log[k].entryHash, log[k - 1].entryHash, log[k + 1].content, log[k + 1].content);
    }
  }
}
