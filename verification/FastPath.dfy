/** The question key read straight from query bytes, and why it agrees with the parsed one. */
module FastPath {
  import opened Bytes
  import opened Names
  import opened Messages
  import opened Cache
  import RoundTrip

  /** Labels up to a terminator or pointer, with the position where the walk stopped. */
  function RawLabels(w: seq<byte>, pos: nat): Option<(seq<Label>, nat)>
    decreases |w| - pos
  {
    if pos >= |w| || w[pos] == 0 || IsPointer(w[pos]) then Some(([], pos))
    else
      var next := pos + 1 + w[pos];
      if next > |w| then None
      else
        match RawLabels(w, next)
        case None => None
        case Some((ls, p)) => Some(([w[pos + 1..next]] + ls, p))
  }

  function RawKey(w: seq<byte>): Option<Key> {
    if |w| < HEADER_SIZE || ReadU16(w, 4) == 0 then None
    else
      match RawLabels(w, HEADER_SIZE)
      case None => None
      case Some((ls, p)) =>
        if p + 5 > |w| then None else Some(Key(Join(ls), ReadU16(w, p + 1), ReadU16(w, p + 3)))
  }

  lemma {:induction false} RawLabelsDecode(w: seq<byte>, pos: nat, hops: nat)
    requires PointerFree(w, pos) && DecodeLabels(w, pos, hops).Ok?
    ensures RawLabels(w, pos) == Some((DecodeLabels(w, pos, hops).value, AfterName(w, pos) - 1))
    decreases |w| - pos
  {
    hide DecodeLabels, AfterName;
    DecodeCases(w, pos, hops);
    if w[pos] != 0 {
      RawLabelsDecode(w, pos + 1 + w[pos], hops);
    }
  }

  lemma {:induction false} FirstOfMany(w: seq<byte>, pos: nat, n: nat, h: nat)
    requires n > 0 && QuestionsAt(w, pos, n, h).Ok?
    ensures QuestionAt(w, pos, h).Ok? && |QuestionsAt(w, pos, n, h).value.0| == n
    ensures QuestionsAt(w, pos, n, h).value.0[0] == QuestionAt(w, pos, h).value.0
  {
    hide QuestionAt;
    if n == 1 {
      assert QuestionsAt(w, pos, 0, h) == Ok(([], pos));
    } else {
      FirstOfMany(w, pos, n - 1, h);
    }
  }

  lemma FirstQuestion(w: seq<byte>, h: nat)
    requires ParseWith(w, h).Ok? && |ParseWith(w, h).value.questions| > 0
    ensures |w| >= HEADER_SIZE && ReadU16(w, 4) > 0
    ensures QuestionAt(w, HEADER_SIZE, h).Ok?
    ensures ParseWith(w, h).value.questions[0] == QuestionAt(w, HEADER_SIZE, h).value.0
    ensures ParseWith(w, h).value.header.id == ReadU16(w, 0)
  {
    hide SectionAt, QuestionAt, QuestionsAt;
    RoundTrip.ParsedQuestions(w, HEADER_SIZE, HeaderAt(w).qdcount, h);
    FirstOfMany(w, HEADER_SIZE, HeaderAt(w).qdcount, h);
  }

  /** For accepted bytes with no pointer in the first question, the raw key is that question's key. */
  lemma RawKeyAgrees(w: seq<byte>)
    requires ParseSpec(w).Ok? && |ParseSpec(w).value.questions| > 0 && PointerFree(w, HEADER_SIZE)
    ensures RawKey(w) == Some(KeyOf(ParseSpec(w).value.questions[0]))
  {
    hide DecodeLabels, RawLabels, AfterName, Join, PointerFree, ParseWith;
    FirstQuestion(w, MAX_JUMPS);
    RawLabelsDecode(w, HEADER_SIZE, MAX_JUMPS);
    DecodedCursor(w, HEADER_SIZE, MAX_JUMPS);
  }

  /** Fast path refines slow path: on accepted bytes with one question and no pointer in it,
      peekCacheRaw hits exactly when peekCache hits on the parsed message; the reply has the same id
      and the same answers, and outside a stale L2 hit the same authority and additional sections too. */
  lemma FastPathRefinesSlowPath(hash: Hash, st: State, stale: nat, w: seq<byte>, now: int)
    requires |st.l1| == TURBO_SIZE
    requires ParseSpec(w).Ok? && |ParseSpec(w).value.questions| == 1 && PointerFree(w, HEADER_SIZE)
    ensures RawKey(w).Some?
    ensures var m := ParseSpec(w).value;
            var f := Lookup(hash, st, stale, RawKey(w).value, now);
            var slow := HitReply(m, Lookup(hash, st, stale, KeyOf(m.questions[0]), now));
            var fast := RawHitReply(ReadU16(w, 0), f);
            && (fast.Some? <==> slow.Some?)
            && (fast.Some? ==> fast.value.header.id == slow.value.header.id && fast.value.answers == slow.value.answers)
            && (fast.Some? && !f.Stale? ==>
                  fast.value.authorities == slow.value.authorities && fast.value.additionals == slow.value.additionals)
            && (fast.Some? && f.Stale? ==> fast.value.authorities == [] && fast.value.additionals == [])
  {
    hide ParseSpec, RawKey, Lookup, PointerFree;
    RawKeyAgrees(w);
    ParsedId(w);
  }

  lemma ParsedId(w: seq<byte>)
    requires ParseSpec(w).Ok? && |ParseSpec(w).value.questions| == 1
    ensures |w| >= HEADER_SIZE && ParseSpec(w).value.header.id == ReadU16(w, 0)
  {
    hide ParseWith;
    FirstQuestion(w, MAX_JUMPS);
  }

  // ---------------------------------------------------------------- questions with a pointer

  /** The raw walk stops at the first pointer, with the labels before it. */
  lemma {:induction false} RawStopsAtPointer(w: seq<byte>, pos: nat, hops: nat)
    requires !PointerFree(w, pos) && DecodeLabels(w, pos, hops).Ok?
    ensures hops > 0 && RawLabels(w, pos).Some?
    ensures var (ls, p) := RawLabels(w, pos).value;
            && p + 1 < |w| && IsPointer(w[p]) && AfterName(w, pos) == p + 2
            && var rest := DecodeLabels(w, PointerTarget(w[p], w[p + 1]), hops - 1);
               rest.Ok? && DecodeLabels(w, pos, hops).value == ls + rest.value
    decreases |w| - pos
  {
    hide DecodeLabels, AfterName;
    DecodeCases(w, pos, hops);
    if IsPointer(w[pos]) {
      var rest := DecodeLabels(w, PointerTarget(w[pos], w[pos + 1]), hops - 1);
      assert [] + rest.value == rest.value;
    } else {
      var next := pos + 1 + w[pos];
      RawStopsAtPointer(w, next, hops);
      var (ls, p) := RawLabels(w, next).value;
      var rest := DecodeLabels(w, PointerTarget(w[p], w[p + 1]), hops - 1).value;
      assert [w[pos + 1..next]] + (ls + rest) == [w[pos + 1..next]] + ls + rest;
    }
  }

  lemma {:induction false} JoinGrows(ls: seq<Label>, rest: seq<Label>)
    requires rest != [] && forall l :: l in rest ==> |l| >= 1
    ensures |Join(ls + rest)| > |Join(ls)|
  {
    var init, last := rest[..|rest| - 1], rest[|rest| - 1];
    var all := ls + rest;
    assert all[..|all| - 1] == ls + init;
    assert last in rest;
    if |rest| > 1 {
      JoinGrows(ls, init);
    } else {
      assert ls + init == ls;
    }
  }

  /** The one way a pointer does no harm: it refers to an empty name, and it and the question's type
      and class are five equal bytes, so that reading one byte early makes no difference. */
  predicate Coincides(w: seq<byte>) {
    match RawLabels(w, HEADER_SIZE)
    case None => false
    case Some((_, p)) =>
      && p + 6 <= |w| && IsPointer(w[p])
      && DecodeLabels(w, PointerTarget(w[p], w[p + 1]), MAX_JUMPS - 1) == Ok([])
      && w[p + 1] == w[p + 2] == w[p + 3] == w[p + 4] == w[p + 5]
  }

  lemma U16Equal(a: byte, b: byte, c: byte, d: byte)
    ensures (a as int) * 0x100 + b == (c as int) * 0x100 + d <==> a == c && b == d
  {
  }

  /** For accepted bytes with a question, the raw key is the first question's key exactly when that
      question has no pointer or the coincidence above holds. */
  lemma RawKeyExact(w: seq<byte>)
    requires ParseSpec(w).Ok? && |ParseSpec(w).value.questions| > 0
    ensures RawKey(w).Some?
    ensures RawKey(w).value == KeyOf(ParseSpec(w).value.questions[0]) <==> PointerFree(w, HEADER_SIZE) || Coincides(w)
  {
    hide DecodeLabels, Join, AfterName, PointerFree, RawLabels, ParseWith;
    FirstQuestion(w, MAX_JUMPS);
    DecodedCursor(w, HEADER_SIZE, MAX_JUMPS);
    if PointerFree(w, HEADER_SIZE) {
      RawKeyAgrees(w);
    } else {
      RawStopsAtPointer(w, HEADER_SIZE, MAX_JUMPS);
      var (ls, p) := RawLabels(w, HEADER_SIZE).value;
      var rest := DecodeLabels(w, PointerTarget(w[p], w[p + 1]), MAX_JUMPS - 1).value;
      if rest == [] {
        assert ls + rest == ls;
      } else {
        assert forall l :: l in rest ==> l in ls + rest;
        JoinGrows(ls, rest);
      }
      U16Equal(w[p + 1], w[p + 2], w[p + 2], w[p + 3]);
      U16Equal(w[p + 3], w[p + 4], w[p + 4], w[p + 5]);
    }
  }

  /** peekCacheRaw hits on the bytes `w`. */
  predicate RawHits(hash: Hash, st: State, stale: nat, w: seq<byte>, now: int)
    requires |st.l1| == TURBO_SIZE
  {
    RawKey(w).Some? && !Lookup(hash, st, stale, RawKey(w).value, now).Missing?
  }

  /** peekCache hits on the message `m`: it wants exactly one question. */
  predicate PeekHits(hash: Hash, st: State, stale: nat, m: Message, now: int)
    requires |st.l1| == TURBO_SIZE
  {
    |m.questions| == 1 && !Lookup(hash, st, stale, KeyOf(m.questions[0]), now).Missing?
  }

  /** Both paths hit in the same cache states, over all states. */
  ghost predicate SameHits(w: seq<byte>, m: Message) {
    forall hash: Hash, st: State, stale: nat, now: int :: |st.l1| == TURBO_SIZE ==>
      (RawHits(hash, st, stale, w, now) <==> PeekHits(hash, st, stale, m, now))
  }

  /** A cache in which `k` hits and no other key does. */
  lemma OnlyHit(k: Key, m: Message) returns (hash: Hash, st: State)
    ensures |st.l1| == TURBO_SIZE && !Lookup(hash, st, 0, k, 0).Missing?
    ensures forall k' :: k' != k ==> Lookup(hash, st, 0, k', 0).Missing?
  {
    st := EmptyCache().(l2 := map[k := Entry(m, 1, 1)]);
    hash := (_: Key) => 0;
    assert Lookup(hash, st, 0, k, 0) == Fresh(Entry(m, 1, 1));
  }

  lemma SameHitsMeansSameKey(w: seq<byte>, m: Message)
    requires RawKey(w).Some?
    ensures SameHits(w, m) <==> |m.questions| == 1 && RawKey(w).value == KeyOf(m.questions[0])
  {
    hide RawKey, Lookup;
    if |m.questions| != 1 || RawKey(w).value != KeyOf(m.questions[0]) {
      var hash, st := OnlyHit(RawKey(w).value, m);
      assert RawHits(hash, st, 0, w, 0) && !PeekHits(hash, st, 0, m, 0);
    }
  }

  lemma NoQuestionNoKey(w: seq<byte>)
    requires ParseSpec(w).Ok? && |ParseSpec(w).value.questions| == 0
    ensures RawKey(w).None?
  {
    hide SectionAt, QuestionsAt, RawLabels;
    RoundTrip.ParsedQuestions(w, HEADER_SIZE, HeaderAt(w).qdcount, MAX_JUMPS);
  }

  /** Exactly when the fast path refines the slow path: for all accepted bytes, both hit in the same
      cache states, whatever the state, if and only if there is no question, or one question that has
      no pointer or meets the coincidence. */
  lemma FastPathExact(w: seq<byte>)
    requires ParseSpec(w).Ok?
    ensures var m := ParseSpec(w).value;
            SameHits(w, m) <==>
            || |m.questions| == 0
            || (|m.questions| == 1 && (PointerFree(w, HEADER_SIZE) || Coincides(w)))
  {
    var m := ParseSpec(w).value;
    hide ParseSpec, RawKey, PointerFree, Coincides, Lookup;
    if |m.questions| == 0 {
      NoQuestionNoKey(w);
    } else {
      RawKeyExact(w);
      SameHitsMeansSameKey(w, m);
      hide SameHits;
    }
  }

  /** The question loop of peekCacheRaw. */
  method ReadRawKey(w: seq<byte>) returns (r: Option<Key>)
    ensures r == RawKey(w)
  {
    if |w| < HEADER_SIZE {
      return None;
    }
    var qdcount := ReadU16(w, 4);
    if qdcount == 0 {
      return None;
    }
    hide Join, RawLabels;
    var p: nat := HEADER_SIZE;
    var qname: Name := [];
    ghost var done: seq<Label> := [];
    NothingYet();
    RawPrependNothing(RawLabels(w, HEADER_SIZE));
    while p < |w| && w[p] != 0
      invariant AllNonEmpty(done) && qname == Join(done)
      invariant RawLabels(w, HEADER_SIZE) == RawPrepend(done, RawLabels(w, p))
      decreases |w| - p
    {
      RawCases(w, p);
      if IsPointer(w[p]) {
        break;
      }
      var labelLen := w[p];
      p := p + 1;
      if p + labelLen > |w| {
        return None;
      }
      var piece := w[p..p + labelLen];
      JoinSnoc(done, piece);
      RawPrependSnoc(done, piece, RawLabels(w, p + labelLen));
      done := done + [piece];
      if qname != [] {
        qname := qname + [DOT];
      }
      qname := qname + piece;
      p := p + labelLen;
    }
    RawCases(w, p);
    assert RawLabels(w, HEADER_SIZE) == Some((done, p)) by {
      assert done + [] == done;
    }
    if p >= |w| {
      return None;
    }
    p := p + 1;
    if p + 4 > |w| {
      return None;
    }
    r := Some(Key(qname, ReadU16(w, p), ReadU16(w, p + 2)));
  }

  function RawPrepend(ls: seq<Label>, r: Option<(seq<Label>, nat)>): Option<(seq<Label>, nat)> {
    match r
    case None => None
    case Some((more, p)) => Some((ls + more, p))
  }

  lemma RawPrependNothing(r: Option<(seq<Label>, nat)>)
    ensures RawPrepend([], r) == r
  {
    if r.Some? {
      assert [] + r.value.0 == r.value.0;
    }
  }

  lemma RawPrependSnoc(ls: seq<Label>, l: Label, r: Option<(seq<Label>, nat)>)
    ensures RawPrepend(ls, RawPrepend([l], r)) == RawPrepend(ls + [l], r)
  {
    if r.Some? {
      assert ls + ([l] + r.value.0) == ls + [l] + r.value.0;
    }
  }

  lemma RawCases(w: seq<byte>, pos: nat)
    ensures pos >= |w| || w[pos] == 0 || IsPointer(w[pos]) ==> RawLabels(w, pos) == Some(([], pos))
    ensures pos < |w| && w[pos] != 0 && !IsPointer(w[pos]) ==>
              RawLabels(w, pos) ==
              if pos + 1 + w[pos] > |w| then None
              else RawPrepend([w[pos + 1..pos + 1 + w[pos]]], RawLabels(w, pos + 1 + w[pos]))
  {
  }
}
