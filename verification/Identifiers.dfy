/** Transactions with their data, and the hashes that stand for them in the unspent hash set. */
module Identifiers {
  import opened Common
  import opened Codec
  import opened Serialization
  import opened Messages
  import Ledger

  datatype OutPoint = OutPoint(txId: Hash, index: u64)

  datatype Output = Output(commitment: Hash, value: u64)

  datatype Input = Input(prevout: OutPoint, data: Output)

  datatype FullTx = FullTx(inputs: seq<Input>, outputs: seq<Output>, witnesses: seq<seq<byte>>)
  {
    /** Vector lengths are 64-bit. */
    predicate Sized() { |inputs| < U64_RANGE && |outputs| < U64_RANGE }
  }

  // ---------------------------------------------------------------- what gets hashed

  const OUT_POINT := Pair(HASH, U64)
  const OUTPUT := Pair(HASH, U64)
  const INPUT := Pair(OUT_POINT, OUTPUT)

  function OutPointLayout(p: OutPoint): Layout { LTwo(LBytes(p.txId), LNumber(p.index)) }

  function OutputLayout(o: Output): Layout { LTwo(LBytes(o.commitment), LNumber(o.value)) }

  function InputLayout(i: Input): Layout { LTwo(OutPointLayout(i.prevout), OutputLayout(i.data)) }

  function InputsLayout(ins: seq<Input>): Layout {
    LList(seq(|ins|, k requires 0 <= k < |ins| => InputLayout(ins[k])))
  }

  function OutputsLayout(outs: seq<Output>): Layout {
    LList(seq(|outs|, k requires 0 <= k < |outs| => OutputLayout(outs[k])))
  }

  lemma OutputTyped(o: Output)
    ensures Typed(OUTPUT, OutputLayout(o))
  {
    NumberTyped(o.value);
  }

  lemma InputTyped(i: Input)
    ensures Typed(INPUT, InputLayout(i))
  {
    NumberTyped(i.prevout.index);
    OutputTyped(i.data);
  }

  lemma VectorsTyped(tx: FullTx)
    requires tx.Sized()
    ensures Typed(Vector(INPUT), InputsLayout(tx.inputs)) && Typed(Vector(OUTPUT), OutputsLayout(tx.outputs))
  {
    forall k | 0 <= k < |tx.inputs| ensures Typed(INPUT, InputsLayout(tx.inputs).elems[k]) {
      InputTyped(tx.inputs[k]);
    }
    forall k | 0 <= k < |tx.outputs| ensures Typed(OUTPUT, OutputsLayout(tx.outputs).elems[k]) {
      OutputTyped(tx.outputs[k]);
    }
  }

  function OutputBytes(o: Output): seq<byte> {
    OutputTyped(o);
    Encode(OUTPUT, OutputLayout(o))
  }

  function InputBytes(i: Input): seq<byte> {
    InputTyped(i);
    Encode(INPUT, InputLayout(i))
  }

  function InputsBytes(tx: FullTx): seq<byte>
    requires tx.Sized()
  {
    VectorsTyped(tx);
    Encode(Vector(INPUT), InputsLayout(tx.inputs))
  }

  function OutputsBytes(tx: FullTx): seq<byte>
    requires tx.Sized()
  {
    VectorsTyped(tx);
    Encode(Vector(OUTPUT), OutputsLayout(tx.outputs))
  }

  // ---------------------------------------------------------------- identifiers

  /** Any hash function; the system uses SHA-256. */
  type Digest = seq<byte> -> Hash

  function TxId(h: Digest, tx: FullTx): Hash
    requires tx.Sized()
  {
    h(TxMessage(tx))
  }

  function TxMessage(tx: FullTx): seq<byte>
    requires tx.Sized()
  {
    InputsBytes(tx) + OutputsBytes(tx)
  }

  function InputHash(h: Digest, i: Input): Hash { h(InputBytes(i)) }

  /** The index is written as the machine stores it, low byte first. */
  function UhsMessage(entropy: Hash, i: u64, o: Output): seq<byte> {
    entropy + LittleEndian(i, 8) + OutputBytes(o)
  }

  function UhsId(h: Digest, entropy: Hash, i: u64, o: Output): Hash { h(UhsMessage(entropy, i, o)) }

  function InputFromOutput(h: Digest, tx: FullTx, i: nat): Option<Input>
    requires tx.Sized()
  {
    if i >= |tx.outputs| then None else Some(Input(OutPoint(TxId(h, tx), i), tx.outputs[i]))
  }

  function InputIds(h: Digest, ins: seq<Input>): seq<Hash> {
    seq(|ins|, k requires 0 <= k < |ins| => InputHash(h, ins[k]))
  }

  function OutputIds(h: Digest, id: Hash, outs: seq<Output>): seq<Hash>
    requires |outs| < U64_RANGE
  {
    seq(|outs|, k requires 0 <= k < |outs| => UhsId(h, id, k, outs[k]))
  }

  function Compact(h: Digest, tx: FullTx): CompactTx
    requires tx.Sized()
  {
    CompactTx(TxId(h, tx), InputIds(h, tx.inputs), OutputIds(h, TxId(h, tx), tx.outputs), map[])
  }

  lemma UhsMessageIsInput(entropy: Hash, i: u64, o: Output)
    ensures UhsMessage(entropy, i, o) == InputBytes(Input(OutPoint(entropy, i), o))
  {
    NumberTyped(i);
    var p := OutPoint(entropy, i);
    assert Encode(OUT_POINT, OutPointLayout(p)) == entropy + LittleEndian(i, 8);
  }

  /** The id under which an output is stored is the hash of the input that will spend it. */
  lemma UhsIdsAgree(h: Digest, tx: FullTx, i: nat)
    requires tx.Sized()
    ensures InputFromOutput(h, tx, i).Some? <==> i < |Compact(h, tx).outputs|
    ensures i < |tx.outputs| ==> Compact(h, tx).outputs[i] == InputHash(h, InputFromOutput(h, tx, i).value)
  {
    if i < |tx.outputs| {
      UhsMessageIsInput(TxId(h, tx), i, tx.outputs[i]);
    }
  }

  // ---------------------------------------------------------------- byte by byte

  /** Commitment and value; and for an input, first the transaction and the position. */
  lemma FieldBytes(i: Input)
    ensures OutputBytes(i.data) == i.data.commitment + LittleEndian(i.data.value, 8)
    ensures InputBytes(i) == i.prevout.txId + LittleEndian(i.prevout.index, 8) + OutputBytes(i.data)
  {
    UhsMessageIsInput(i.prevout.txId, i.prevout.index, i.data);
    NumberTyped(i.data.value);
    assert Input(OutPoint(i.prevout.txId, i.prevout.index), i.data) == i;
  }

  function InputParts(ins: seq<Input>): seq<seq<byte>> {
    seq(|ins|, k requires 0 <= k < |ins| => InputBytes(ins[k]))
  }

  function OutputParts(outs: seq<Output>): seq<seq<byte>> {
    seq(|outs|, k requires 0 <= k < |outs| => OutputBytes(outs[k]))
  }

  /** What is hashed for an id: how many inputs there are, the inputs, how many outputs, and the outputs. */
  lemma MessageBytes(tx: FullTx)
    requires tx.Sized()
    ensures TxMessage(tx) == LittleEndian(|tx.inputs|, 8) + Concat(InputParts(tx.inputs)) +
                             (LittleEndian(|tx.outputs|, 8) + Concat(OutputParts(tx.outputs)))
  {
    VectorsTyped(tx);
    assert EncodeEach(INPUT, InputsLayout(tx.inputs).elems) == InputParts(tx.inputs);
    assert EncodeEach(OUTPUT, OutputsLayout(tx.outputs).elems) == OutputParts(tx.outputs);
  }

  // ---------------------------------------------------------------- different data, different messages

  lemma AbsOutput(o: Output)
    ensures Abs(OutputLayout(o)) == Two(Bytes(o.commitment), Number(o.value))
  {
  }

  lemma AbsInput(i: Input)
    ensures Abs(InputLayout(i)) ==
            Two(Two(Bytes(i.prevout.txId), Number(i.prevout.index)),
                Two(Bytes(i.data.commitment), Number(i.data.value)))
  {
    assert Abs(OutPointLayout(i.prevout)) == Two(Bytes(i.prevout.txId), Number(i.prevout.index));
    AbsOutput(i.data);
  }

  lemma InputBytesInjective(i: Input, j: Input)
    requires InputBytes(i) == InputBytes(j)
    ensures i == j
  {
    InputTyped(i);
    InputTyped(j);
    Unambiguous(INPUT, InputLayout(i), InputLayout(j), [], []);
    AbsInput(i);
    AbsInput(j);
  }

  lemma InputsLayoutInjective(a: seq<Input>, b: seq<Input>)
    requires Abs(InputsLayout(a)) == Abs(InputsLayout(b))
    ensures a == b
  {
    var x, y := InputsLayout(a).elems, InputsLayout(b).elems;
    assert AbsAll(x) == AbsAll(y);
    assert |a| == |AbsAll(x)| == |AbsAll(y)| == |b|;
    forall k | 0 <= k < |a| ensures a[k] == b[k] {
      assert Abs(x[k]) == AbsAll(x)[k] == AbsAll(y)[k] == Abs(y[k]);
      AbsInput(a[k]);
      AbsInput(b[k]);
    }
  }

  lemma OutputsLayoutInjective(a: seq<Output>, b: seq<Output>)
    requires Abs(OutputsLayout(a)) == Abs(OutputsLayout(b))
    ensures a == b
  {
    var x, y := OutputsLayout(a).elems, OutputsLayout(b).elems;
    assert AbsAll(x) == AbsAll(y);
    assert |a| == |AbsAll(x)| == |AbsAll(y)| == |b|;
    forall k | 0 <= k < |a| ensures a[k] == b[k] {
      assert Abs(x[k]) == AbsAll(x)[k] == AbsAll(y)[k] == Abs(y[k]);
      AbsOutput(a[k]);
      AbsOutput(b[k]);
    }
  }

  /** Transactions with one id message have the same inputs and outputs: nothing can move between the two
      vectors. */
  lemma TxMessageInjective(s: FullTx, t: FullTx)
    requires s.Sized() && t.Sized()
    ensures TxMessage(s) == TxMessage(t) <==> s.inputs == t.inputs && s.outputs == t.outputs
  {
    VectorsTyped(s);
    VectorsTyped(t);
    if TxMessage(s) == TxMessage(t) {
      Unambiguous(Vector(INPUT), InputsLayout(s.inputs), InputsLayout(t.inputs), OutputsBytes(s), OutputsBytes(t));
      InputsLayoutInjective(s.inputs, t.inputs);
      Unambiguous(Vector(OUTPUT), OutputsLayout(s.outputs), OutputsLayout(t.outputs), [], []);
      OutputsLayoutInjective(s.outputs, t.outputs);
    }
  }

  // ---------------------------------------------------------------- no collisions among the data in use

  /** A finite stock of transactions and genesis outputs: the data that hashes are ever taken of. */
  datatype Book = Book(txs: set<FullTx>, genesis: set<Input>)

  /** The input that spends output `k` of `tx`. */
  function Spending(h: Digest, tx: FullTx, k: nat): Input
    requires tx.Sized() && k < |tx.outputs|
  {
    Input(OutPoint(TxId(h, tx), k), tx.outputs[k])
  }

  ghost predicate Mentions(h: Digest, tx: FullTx, i: Input)
    requires tx.Sized()
  {
    i in tx.inputs || exists k: nat :: k < |tx.outputs| && i == Spending(h, tx, k)
  }

  ghost predicate Known(h: Digest, b: Book, i: Input)
    requires AllSized(b)
  {
    i in b.genesis || exists t :: t in b.txs && Mentions(h, t, i)
  }

  predicate AllSized(b: Book) {
    forall t | t in b.txs :: t.Sized()
  }

  /** `h` takes different messages of this set to different digests. */
  ghost predicate InjectiveOn(h: Digest, msgs: iset<seq<byte>>) {
    forall m, n | m in msgs && n in msgs && h(m) == h(n) :: m == n
  }

  /** The inputs and outputs of the transactions of the book in full, and every input they mention. */
  ghost function HashedMessages(h: Digest, b: Book): iset<seq<byte>>
    requires AllSized(b)
  {
    (iset t | t in b.txs :: InputsBytes(t) + OutputsBytes(t)) + (iset i | Known(h, b, i) :: InputBytes(i))
  }

  /** No two messages among those in use share a digest, and no genesis output claims to come from a
      transaction of the book. */
  ghost predicate CollisionFree(h: Digest, b: Book) {
    && AllSized(b) && InjectiveOn(h, HashedMessages(h, b))
    && (forall g, t | g in b.genesis && t in b.txs :: g.prevout.txId != TxId(h, t))
  }

  /** An id names the inputs and the outputs of a transaction, and not its witnesses. */
  lemma TxIdNames(h: Digest, b: Book, s: FullTx, t: FullTx)
    requires CollisionFree(h, b) && s in b.txs && t in b.txs
    ensures TxId(h, s) == TxId(h, t) <==> s.inputs == t.inputs && s.outputs == t.outputs
  {
    assert InputsBytes(s) + OutputsBytes(s) in HashedMessages(h, b);
    assert InputsBytes(t) + OutputsBytes(t) in HashedMessages(h, b);
    TxMessageInjective(s, t);
  }

  ghost function GenesisIds(h: Digest, b: Book): set<Hash> {
    set g | g in b.genesis :: InputHash(h, g)
  }

  /** An id in use stands for one input. */
  lemma InputHashInjective(h: Digest, b: Book, i: Input, j: Input)
    requires CollisionFree(h, b) && Known(h, b, i) && Known(h, b, j) && InputHash(h, i) == InputHash(h, j)
    ensures i == j
  {
    assert InputBytes(i) in HashedMessages(h, b) && InputBytes(j) in HashedMessages(h, b);
    InputBytesInjective(i, j);
  }

  /** The id of an output names the transaction, the position and the output. */
  lemma UhsIdNames(h: Digest, b: Book, s: FullTx, t: FullTx, k: nat, l: nat)
    requires CollisionFree(h, b) && s in b.txs && t in b.txs && k < |s.outputs| && l < |t.outputs|
    ensures UhsId(h, TxId(h, s), k, s.outputs[k]) == UhsId(h, TxId(h, t), l, t.outputs[l]) <==>
            s.inputs == t.inputs && s.outputs == t.outputs && k == l
  {
    if UhsId(h, TxId(h, s), k, s.outputs[k]) == UhsId(h, TxId(h, t), l, t.outputs[l]) {
      OutputOrigin(h, b, s, t, k, l);
    }
    TxIdNames(h, b, s, t);
  }

  lemma OutputPreimage(h: Digest, b: Book, tx: FullTx, k: nat)
    requires CollisionFree(h, b) && tx in b.txs && k < |tx.outputs|
    ensures Known(h, b, Spending(h, tx, k))
    ensures Compact(h, tx).outputs[k] == InputHash(h, Spending(h, tx, k))
  {
    UhsIdsAgree(h, tx, k);
    assert Mentions(h, tx, Spending(h, tx, k));
  }

  lemma InputPreimage(h: Digest, b: Book, tx: FullTx, k: nat)
    requires CollisionFree(h, b) && tx in b.txs && k < |tx.inputs|
    ensures Known(h, b, tx.inputs[k]) && Compact(h, tx).inputs[k] == InputHash(h, tx.inputs[k])
  {
    assert Mentions(h, tx, tx.inputs[k]);
  }

  /** Output ids name the transaction and the position they come from. */
  lemma OutputOrigin(h: Digest, b: Book, s: FullTx, t: FullTx, k: nat, l: nat)
    requires CollisionFree(h, b) && s in b.txs && t in b.txs && k < |s.outputs| && l < |t.outputs|
    requires Compact(h, s).outputs[k] == Compact(h, t).outputs[l]
    ensures TxId(h, s) == TxId(h, t) && k == l
  {
    OutputPreimage(h, b, s, k);
    OutputPreimage(h, b, t, l);
    InputHashInjective(h, b, Spending(h, s, k), Spending(h, t, l));
  }

  lemma IdsAreOrigins(h: Digest, b: Book, s: FullTx, t: FullTx)
    requires CollisionFree(h, b) && s in b.txs && t in b.txs
    ensures Ledger.SameOrigin(Compact(h, s), Compact(h, t))
  {
    var a, c := Compact(h, s), Compact(h, t);
    TxIdNames(h, b, s, t);
    if x :| x in a.OutputSet() * c.OutputSet() {
      var k :| 0 <= k < |a.outputs| && a.outputs[k] == x;
      var l :| 0 <= l < |c.outputs| && c.outputs[l] == x;
      OutputOrigin(h, b, s, t, k, l);
    }
  }

  lemma OutputIdsFresh(h: Digest, b: Book, tx: FullTx)
    requires CollisionFree(h, b) && tx in b.txs
    ensures Distinct(Compact(h, tx).outputs) && Compact(h, tx).OutputSet() !! GenesisIds(h, b)
  {
    var c := Compact(h, tx);
    forall k, l | 0 <= k < l < |c.outputs| ensures c.outputs[k] != c.outputs[l] {
      if c.outputs[k] == c.outputs[l] { OutputOrigin(h, b, tx, tx, k, l); }
    }
    if x :| x in c.OutputSet() && x in GenesisIds(h, b) {
      var k :| 0 <= k < |c.outputs| && c.outputs[k] == x;
      var g :| g in b.genesis && InputHash(h, g) == x;
      OutputPreimage(h, b, tx, k);
      InputHashInjective(h, b, g, Spending(h, tx, k));
    }
  }

  lemma InputIdsDistinct(h: Digest, b: Book, tx: FullTx)
    requires CollisionFree(h, b) && tx in b.txs && Distinct(tx.inputs)
    ensures Distinct(Compact(h, tx).inputs)
  {
    var c := Compact(h, tx);
    forall k, l | 0 <= k < l < |c.inputs| ensures c.inputs[k] != c.inputs[l] {
      InputPreimage(h, b, tx, k);
      InputPreimage(h, b, tx, l);
      if c.inputs[k] == c.inputs[l] { InputHashInjective(h, b, tx.inputs[k], tx.inputs[l]); }
    }
  }
}
