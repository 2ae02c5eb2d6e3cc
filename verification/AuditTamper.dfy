/** What a head hash says about a whole chain. */
module AuditTamper {
  import opened Options
  import opened Decimal
  import opened AuditChain

  /** Two different texts with the same hash. */
  predicate Collides(e: Entry, f: Entry, hash: string -> string) {
    Preimage(e) != Preimage(f) && hash(Preimage(e)) == hash(Preimage(f))
  }

  /** An entry of one chain and an entry of the other are hashed from different texts to one hash. */
  predicate CollideWithin(c: seq<Entry>, d: seq<Entry>, hash: string -> string) {
    exists i, j :: 0 <= i < |c| && 0 <= j < |d| && Collides(c[i], d[j], hash)
  }

  predicate ColonFree(s: string) { ':' !in s }

  /** Session, type and actor fields are colon-free. */
  predicate PlainFields(e: Entry) {
    ColonFree(e.session) && ColonFree(e.eventType) && ColonFree(ActorText(e.actor))
  }

  /** The hashed content of two entries agrees; a missing actor and an empty one hash alike. */
  predicate SameContent(e: Entry, f: Entry) {
    && e.session == f.session && e.sequence == f.sequence && e.eventType == f.eventType
    && ActorText(e.actor) == ActorText(f.actor) && e.previousHash == f.previousHash && e.payload == f.payload
  }

  lemma SplitAtFirstColon(a: string, x: string, b: string, y: string)
    requires a + ":" + x == b + ":" + y && ColonFree(a) && ColonFree(b)
    ensures a == b && x == y
  {
    var whole := a + ":" + x;
    assert whole == b + ":" + y;
    assert whole[|a|] == ':' && whole[|b|] == ':';
    assert forall i :: 0 <= i < |a| ==> whole[i] == a[i];
    assert forall i :: 0 <= i < |b| ==> whole[i] == b[i];
    assert |a| == |b|;
    assert a == whole[..|a|] && b == whole[..|b|];
    assert x == whole[|a| + 1..] && y == whole[|b| + 1..];
  }

  /** The hashed text decodes uniquely, although the payload may contain colons. */
  lemma PreimageDecodes(e: Entry, f: Entry)
    requires PlainFields(e) && PlainFields(f) && ColonFree(e.previousHash) && ColonFree(f.previousHash)
    requires Preimage(e) == Preimage(f)
    ensures SameContent(e, f)
  {
    var e5, f5 := e.previousHash + ":" + e.payload, f.previousHash + ":" + f.payload;
    var e4, f4 := ActorText(e.actor) + ":" + e5, ActorText(f.actor) + ":" + f5;
    var e3, f3 := e.eventType + ":" + e4, f.eventType + ":" + f4;
    var e2, f2 := Digits(e.sequence) + ":" + e3, Digits(f.sequence) + ":" + f3;
    SplitAtFirstColon(e.session, e2, f.session, f2);
    SplitAtFirstColon(Digits(e.sequence), e3, Digits(f.sequence), f3);
    SplitAtFirstColon(e.eventType, e4, f.eventType, f4);
    SplitAtFirstColon(ActorText(e.actor), e5, ActorText(f.actor), f5);
    SplitAtFirstColon(e.previousHash, e.payload, f.previousHash, f.payload);
    DigitsInjective(e.sequence, f.sequence);
  }

  /** The entries of a session in order, as an export reads them. */
  function Export(docs: Store, session: string, n: nat): seq<Entry>
    requires forall i: nat :: 1 <= i <= n ==> DocumentId(session, i) in docs
  {
    seq(n, i requires 0 <= i < n => docs[DocumentId(session, i + 1)])
  }

  predicate ValidAt(chain: seq<Entry>, i: nat, hash: string -> string)
    requires i < |chain|
  {
    && chain[i].sequence == i + 1
    && PlainFields(chain[i])
    && chain[i].eventHash == hash(Preimage(chain[i]))
    && chain[i].previousHash == (if i == 0 then "" else chain[i - 1].eventHash)
  }

  predicate ValidChain(chain: seq<Entry>, hash: string -> string) {
    forall i :: 0 <= i < |chain| ==> ValidAt(chain, i, hash)
  }

  lemma ExportIsValid(docs: Store, session: string, n: nat, hash: string -> string)
    requires Linked(docs, hash) && n >= 1 && DocumentId(session, n) in docs
    requires forall id :: id in docs ==> PlainFields(docs[id])
    ensures forall i: nat :: 1 <= i <= n ==> DocumentId(session, i) in docs
    ensures ValidChain(Export(docs, session, n), hash)
  {
    hide DocumentId, Preimage, Linked, ValidAt, PlainFields;
    forall i: nat | 1 <= i <= n
      ensures DocumentId(session, i) in docs
      ensures docs[DocumentId(session, i)].session == session && docs[DocumentId(session, i)].sequence == i
    {
      SequencesHaveNoHoles(docs, session, i, n, hash);
    }
    forall i | 0 <= i < n
      ensures ValidAt(Export(docs, session, n), i, hash)
    {
      ExportedEntryIsValid(docs, session, n, i, hash);
    }
  }

  lemma ExportedEntryIsValid(docs: Store, session: string, n: nat, i: nat, hash: string -> string)
    requires Linked(docs, hash) && i < n
    requires forall id :: id in docs ==> PlainFields(docs[id])
    requires forall k: nat :: 1 <= k <= n ==>
               && DocumentId(session, k) in docs
               && docs[DocumentId(session, k)].session == session && docs[DocumentId(session, k)].sequence == k
    ensures ValidAt(Export(docs, session, n), i, hash)
  {
    hide DocumentId, Preimage, PlainFields;
    assert docs[DocumentId(session, i + 1)].sequence == i + 1;
  }

  lemma PreviousHashIsColonFree(chain: seq<Entry>, i: nat, hash: string -> string)
    requires ValidChain(chain, hash) && i < |chain| && forall x :: ColonFree(hash(x))
    ensures ColonFree(chain[i].previousHash)
  {
    assert ValidAt(chain, i, hash);
    if i > 0 {
      assert ValidAt(chain, i - 1, hash) && ColonFree(hash(Preimage(chain[i - 1])));
    }
  }

  lemma PrefixIsValid(chain: seq<Entry>, hash: string -> string)
    requires ValidChain(chain, hash) && chain != []
    ensures ValidChain(chain[..|chain| - 1], hash)
  {
    hide Preimage, PlainFields;
    var prefix := chain[..|chain| - 1];
    forall i | 0 <= i < |prefix|
      ensures ValidAt(prefix, i, hash)
    {
      assert ValidAt(chain, i, hash);
    }
  }

  /** Main result: the head hash commits to the whole chain. Two valid chains with the same head
      hash have the same length and the same hashed content at every position, unless two of their
      own entries collide. */
  lemma {:induction false} HeadHashCommitsToChain(c: seq<Entry>, d: seq<Entry>, hash: string -> string)
    requires ValidChain(c, hash) && ValidChain(d, hash)
    requires forall x :: ColonFree(hash(x))
    requires c != [] && d != [] && c[|c| - 1].eventHash == d[|d| - 1].eventHash
    ensures CollideWithin(c, d, hash) || (|c| == |d| && forall i :: 0 <= i < |c| ==> SameContent(c[i], d[i]))
    decreases |c|
  {
    hide Preimage, PlainFields, ColonFree;
    var e, f := c[|c| - 1], d[|d| - 1];
    assert ValidAt(c, |c| - 1, hash) && ValidAt(d, |d| - 1, hash);
    if Preimage(e) != Preimage(f) {
      assert Collides(c[|c| - 1], d[|d| - 1], hash);
    } else {
      PreviousHashIsColonFree(c, |c| - 1, hash);
      PreviousHashIsColonFree(d, |d| - 1, hash);
      PreimageDecodes(e, f);
      if |c| > 1 {
        var c', d' := c[..|c| - 1], d[..|d| - 1];
        PrefixIsValid(c, hash);
        PrefixIsValid(d, hash);
        HeadHashCommitsToChain(c', d', hash);
        if CollideWithin(c', d', hash) {
          var i, j :| 0 <= i < |c'| && 0 <= j < |d'| && Collides(c'[i], d'[j], hash);
          assert Collides(c[i], d[j], hash);
        }
      }
    }
  }

  lemma MoveColon(a: string, b: string, c: string, tail: string)
    ensures (a + ":" + b) + ":" + (c + tail) == a + ":" + ((b + ":" + c) + tail)
  {
  }

  /** Without the colon assumption the text is ambiguous: moving a colon between the event type and
      the actor gives two different events with the same hashed text. */
  lemma ColonsMakeItAmbiguous(e: Entry)
    ensures var x := e.(eventType := "a:b", actor := Some("c"));
            var y := e.(eventType := "a", actor := Some("b:c"));
            Preimage(x) == Preimage(y) && !SameContent(x, y)
  {
    MoveColon("a", "b", "c", ":" + (e.previousHash + ":" + e.payload));
    assert "a:b" == "a" + ":" + "b" && "b:c" == "b" + ":" + "c";
    var tail := e.previousHash + ":" + e.payload;
    assert "c" + ":" + tail == "c" + (":" + tail);
    assert "b:c" + ":" + tail == "b:c" + (":" + tail);
  }
}
