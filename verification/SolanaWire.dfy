/** The Solana message and transaction wire format (pkg/blockchain/solana/tx.go), with a parser as
    its specification. Byte strings are appended to a buffer in order. */
module SolanaWire {
  import opened Bytes
  import opened Positional
  import opened Base58

  datatype Header = Header(signatures: Byte, readonlySigned: Byte, readonlyUnsigned: Byte)

  datatype Instruction = Instruction(programIdIndex: Byte, accounts: seq<Byte>, data: seq<Byte>)

  /** Keys and the blockhash are base58 text. */
  datatype Message = Message(
    header: Header, accountKeys: seq<string>, recentBlockhash: string, instructions: seq<Instruction>)

  /** What the wire carries: keys and the blockhash as bytes. */
  datatype RawMessage = RawMessage(
    header: Header, accountKeys: seq<seq<Byte>>, recentBlockhash: seq<Byte>, instructions: seq<Instruction>)

  datatype Parsed<+T> = Parsed(value: T, rest: seq<Byte>)

  // ----- Compact lengths -----

  const MAX_COMPACT: nat := 2097151

  /** Seven bits per byte, low bits first, the high bit marking continuation. */
  function Compact(length: int): (r: Option<seq<Byte>>) {
    if length < 0 || length > MAX_COMPACT then None
    else if length <= 127 then Some([length])
    else if length <= 16383 then Some([length % 128 + 128, length / 128])
    else Some([length % 128 + 128, length / 128 % 128 + 128, length / 16384])
  }

  function ReadCompact(b: seq<Byte>): (r: Option<Parsed<nat>>) {
    if |b| >= 1 && b[0] < 128 then Some(Parsed(b[0], b[1..]))
    else if |b| >= 2 && b[1] < 128 then Some(Parsed(b[0] as int - 128 + 128 * b[1] as int, b[2..]))
    else if |b| >= 3 && b[2] < 128 then Some(Parsed(b[0] as int - 128 + 128 * (b[1] as int - 128) + 16384 * b[2] as int, b[3..]))
    else None
  }

  lemma CompactRoundTrip(length: int, rest: seq<Byte>)
    requires Compact(length).Some?
    ensures ReadCompact(Compact(length).value + rest) == Some(Parsed(length, rest))
  {
    var c := Compact(length).value;
    var b := c + rest;
    assert b[|c|..] == rest;
    assert forall i :: 0 <= i < |c| ==> b[i] == c[i];
  }

  /** No byte string that reads as `length` is shorter than its encoding. */
  lemma CompactMinimal(b: seq<Byte>)
    requires ReadCompact(b).Some?
    ensures Compact(ReadCompact(b).value.value).Some?
    ensures |Compact(ReadCompact(b).value.value).value| <= |b| - |ReadCompact(b).value.rest|
  {
  }

  /** Encodings are prefix-free: no encoding is a prefix of another followed by anything. */
  lemma CompactPrefixFree(m: int, n: int, x: seq<Byte>, y: seq<Byte>)
    requires Compact(m).Some? && Compact(n).Some?
    requires Compact(m).value + x == Compact(n).value + y
    ensures m == n && x == y
  {
    CompactRoundTrip(m, x);
    CompactRoundTrip(n, y);
  }

  /** 1, 128, 16384. */
  function Weight(k: nat): (r: nat)
    ensures r > 0
  {
    if k == 0 then 1 else 128 * Weight(k - 1)
  }

  /** Byte `k` carries the k-th group of seven bits, and its top bit says that more follow. */
  lemma CompactBytes(length: int)
    ensures Compact(length).Some? <==> 0 <= length <= 2097151
    ensures Compact(length).Some? ==>
              var b := Compact(length).value;
              |b| == (if length < 128 then 1 else if length < 16384 then 2 else 3) &&
              forall k :: 0 <= k < |b| ==>
                b[k] == (length / Weight(k)) % 128 + if k + 1 < |b| then 128 else 0
  {
    assert Weight(0) == 1 && Weight(1) == 128 * Weight(0) && Weight(2) == 128 * Weight(1);
    if Compact(length).Some? {
      var b := Compact(length).value;
      forall k | 0 <= k < |b| ensures b[k] == (length / Weight(k)) % 128 + if k + 1 < |b| then 128 else 0 {
        if k == 0 {
          assert length / 1 == length;
        }
      }
    }
  }

  // ----- Serialising -----

  function Key32(text: string): (r: Option<seq<Byte>>) {
    match Decode(text)
    case Some(b) => if |b| == 32 then Some(b) else None
    case None => None
  }

  function Keys(texts: seq<string>): (r: Option<seq<Byte>>) {
    if texts == [] then Some([]) else
      match (Keys(texts[..|texts| - 1]), Key32(texts[|texts| - 1]))
      case (Some(a), Some(b)) => Some(a + b)
      case _ => None
  }

  function InstructionBytes(i: Instruction): (r: Option<seq<Byte>>) {
    match (Compact(|i.accounts|), Compact(|i.data|))
    case (Some(a), Some(d)) => Some([i.programIdIndex] + a + i.accounts + d + i.data)
    case _ => None
  }

  function InstructionsBytes(list: seq<Instruction>): (r: Option<seq<Byte>>) {
    if list == [] then Some([]) else
      match (InstructionsBytes(list[..|list| - 1]), InstructionBytes(list[|list| - 1]))
      case (Some(a), Some(b)) => Some(a + b)
      case _ => None
  }

  function HeaderBytes(h: Header): (r: seq<Byte>) {
    [h.signatures, h.readonlySigned, h.readonlyUnsigned]
  }

  function Serialize(m: Message): (r: Option<seq<Byte>>) {
    match (Compact(|m.accountKeys|), Keys(m.accountKeys), Key32(m.recentBlockhash),
           Compact(|m.instructions|), InstructionsBytes(m.instructions))
    case (Some(n), Some(keys), Some(hash), Some(k), Some(instructions)) =>
      Some(HeaderBytes(m.header) + n + keys + hash + k + instructions)
    case _ => None
  }

  /** `serializeMessage`: the buffer-appending loops, failing at the first malformed part. */
  method SerializeMessage(m: Message) returns (r: Option<seq<Byte>>)
    ensures r == Serialize(m)
  {
    hide Compact, Key32, InstructionBytes;
    var buf := HeaderBytes(m.header);
    var n := Compact(|m.accountKeys|);
    if n.None? {
      return None;
    }
    buf := buf + n.value;
    ghost var head := buf;
    for i := 0 to |m.accountKeys|
      invariant Keys(m.accountKeys[..i]).Some?
      invariant buf == head + Keys(m.accountKeys[..i]).value
    {
      var key := Key32(m.accountKeys[i]);
      assert m.accountKeys[..i + 1][..i] == m.accountKeys[..i];
      if key.None? {
        KeysFail(m.accountKeys, i);
        return None;
      }
      buf := buf + key.value;
    }
    assert m.accountKeys[..|m.accountKeys|] == m.accountKeys;
    var hash := Key32(m.recentBlockhash);
    if hash.None? {
      return None;
    }
    buf := buf + hash.value;
    var k := Compact(|m.instructions|);
    if k.None? {
      return None;
    }
    buf := buf + k.value;
    head := buf;
    for i := 0 to |m.instructions|
      invariant InstructionsBytes(m.instructions[..i]).Some?
      invariant buf == head + InstructionsBytes(m.instructions[..i]).value
    {
      var inst := InstructionBytes(m.instructions[i]);
      assert m.instructions[..i + 1][..i] == m.instructions[..i];
      if inst.None? {
        InstructionsFail(m.instructions, i);
        return None;
      }
      buf := buf + inst.value;
    }
    assert m.instructions[..|m.instructions|] == m.instructions;
    r := Some(buf);
  }

  lemma {:induction false} KeysFail(texts: seq<string>, i: nat)
    requires i < |texts| && Key32(texts[i]).None?
    ensures Keys(texts).None?
    decreases |texts|
  {
    if i < |texts| - 1 {
      KeysFail(texts[..|texts| - 1], i);
    }
  }

  lemma {:induction false} InstructionsFail(list: seq<Instruction>, i: nat)
    requires i < |list| && InstructionBytes(list[i]).None?
    ensures InstructionsBytes(list).None?
    decreases |list|
  {
    if i < |list| - 1 {
      InstructionsFail(list[..|list| - 1], i);
    }
  }

  // ----- Parsing -----

  function Take(b: seq<Byte>, n: nat): (r: Option<Parsed<seq<Byte>>>) {
    if n <= |b| then Some(Parsed(b[..n], b[n..])) else None
  }

  function ParseKeys(b: seq<Byte>, n: nat): (r: Option<Parsed<seq<seq<Byte>>>>)
    decreases n
  {
    if n == 0 then Some(Parsed([], b)) else
      match Take(b, 32)
      case None => None
      case Some(key) =>
        match ParseKeys(key.rest, n - 1)
        case None => None
        case Some(more) => Some(Parsed([key.value] + more.value, more.rest))
  }

  function ParseBlob(b: seq<Byte>): (r: Option<Parsed<seq<Byte>>>) {
    match ReadCompact(b)
    case None => None
    case Some(n) => Take(n.rest, n.value)
  }

  function ParseInstruction(b: seq<Byte>): (r: Option<Parsed<Instruction>>) {
    if b == [] then None else
      match ParseBlob(b[1..])
      case None => None
      case Some(accounts) =>
        match ParseBlob(accounts.rest)
        case None => None
        case Some(data) => Some(Parsed(Instruction(b[0], accounts.value, data.value), data.rest))
  }

  function ParseInstructions(b: seq<Byte>, n: nat): (r: Option<Parsed<seq<Instruction>>>)
    decreases n
  {
    if n == 0 then Some(Parsed([], b)) else
      match ParseInstruction(b)
      case None => None
      case Some(i) =>
        match ParseInstructions(i.rest, n - 1)
        case None => None
        case Some(more) => Some(Parsed([i.value] + more.value, more.rest))
  }

  function ParseBody(h: Header, b: seq<Byte>): (r: Option<Parsed<RawMessage>>) {
    match ReadCompact(b)
    case None => None
    case Some(n) =>
      match ParseKeys(n.rest, n.value)
      case None => None
      case Some(keys) =>
        match Take(keys.rest, 32)
        case None => None
        case Some(hash) =>
          match ReadCompact(hash.rest)
          case None => None
          case Some(k) =>
            match ParseInstructions(k.rest, k.value)
            case None => None
            case Some(list) => Some(Parsed(RawMessage(h, keys.value, hash.value, list.value), list.rest))
  }

  function Parse(b: seq<Byte>): (r: Option<Parsed<RawMessage>>) {
    if |b| < 3 then None else ParseBody(Header(b[0], b[1], b[2]), b[3..])
  }

  // ----- Round trips -----

  function RawKeys(texts: seq<string>): (r: seq<seq<Byte>>)
    requires forall i :: 0 <= i < |texts| ==> Key32(texts[i]).Some?
    ensures |r| == |texts|
  {
    seq(|texts|, i requires 0 <= i < |texts| => Key32(texts[i]).value)
  }

  lemma {:induction false} KeysValid(texts: seq<string>)
    requires Keys(texts).Some?
    ensures forall i :: 0 <= i < |texts| ==> Key32(texts[i]).Some?
  {
    hide Key32;
    if texts != [] {
      KeysValid(texts[..|texts| - 1]);
    }
  }

  /** The bytes of the first key, then those of the others. */
  lemma {:induction false} KeysCons(texts: seq<string>)
    requires texts != [] && Keys(texts).Some?
    ensures Key32(texts[0]).Some? && Keys(texts[1..]).Some?
    ensures Keys(texts).value == Key32(texts[0]).value + Keys(texts[1..]).value
    decreases |texts|
  {
    hide Key32;
    var n := |texts| - 1;
    if n == 0 {
      assert texts[..0] == [] && texts[1..] == [];
    } else {
      KeysCons(texts[..n]);
      assert texts[..n][1..] == texts[1..][..n - 1];
      var a, b, c := Key32(texts[0]).value, Keys(texts[..n][1..]).value, Key32(texts[n]).value;
      assert Keys(texts[1..]).value == b + c;
      assert (a + b) + c == a + (b + c);
    }
  }

  lemma {:induction false} ParseKeysRoundTrip(texts: seq<string>, rest: seq<Byte>)
    requires Keys(texts).Some? && forall i :: 0 <= i < |texts| ==> Key32(texts[i]).Some?
    ensures ParseKeys(Keys(texts).value + rest, |texts|) == Some(Parsed(RawKeys(texts), rest))
    decreases |texts|
  {
    hide Key32, Take;
    if texts == [] {
      assert [] + rest == rest;
    } else {
      KeysCons(texts);
      var key, more := Key32(texts[0]).value, Keys(texts[1..]).value;
      var b := Keys(texts).value + rest;
      assert b == key + (more + rest);
      KeyLength(texts[0]);
      TakeExact(key, more + rest);
      ParseKeysRoundTrip(texts[1..], rest);
      assert RawKeys(texts) == [key] + RawKeys(texts[1..]);
    }
  }

  lemma TakeExact(a: seq<Byte>, rest: seq<Byte>)
    ensures Take(a + rest, |a|) == Some(Parsed(a, rest))
  {
  }

  lemma BlobRoundTrip(c: seq<Byte>, blob: seq<Byte>, rest: seq<Byte>)
    requires Compact(|blob|) == Some(c)
    ensures ParseBlob(c + blob + rest) == Some(Parsed(blob, rest))
  {
    hide Compact, ReadCompact, Take;
    assert c + blob + rest == c + (blob + rest);
    CompactRoundTrip(|blob|, blob + rest);
    TakeExact(blob, rest);
  }

  lemma InstructionRoundTrip(i: Instruction, rest: seq<Byte>)
    requires InstructionBytes(i).Some?
    ensures ParseInstruction(InstructionBytes(i).value + rest) == Some(Parsed(i, rest))
  {
    hide Compact, ParseBlob;
    var a, d := Compact(|i.accounts|).value, Compact(|i.data|).value;
    var b := InstructionBytes(i).value + rest;
    var tail := d + i.data + rest;
    assert b[1..] == a + i.accounts + tail;
    BlobRoundTrip(a, i.accounts, tail);
    BlobRoundTrip(d, i.data, rest);
  }

  lemma {:induction false} InstructionsCons(list: seq<Instruction>)
    requires list != [] && InstructionsBytes(list).Some?
    ensures InstructionBytes(list[0]).Some? && InstructionsBytes(list[1..]).Some?
    ensures InstructionsBytes(list).value == InstructionBytes(list[0]).value + InstructionsBytes(list[1..]).value
    decreases |list|
  {
    hide InstructionBytes;
    var n := |list| - 1;
    if n == 0 {
      assert list[..0] == [] && list[1..] == [];
    } else {
      InstructionsCons(list[..n]);
      assert list[..n][1..] == list[1..][..n - 1];
      var a, b, c := InstructionBytes(list[0]).value, InstructionsBytes(list[..n][1..]).value, InstructionBytes(list[n]).value;
      assert InstructionsBytes(list[1..]).value == b + c;
      assert (a + b) + c == a + (b + c);
    }
  }

  lemma {:induction false} InstructionsRoundTrip(list: seq<Instruction>, rest: seq<Byte>)
    requires InstructionsBytes(list).Some?
    ensures ParseInstructions(InstructionsBytes(list).value + rest, |list|) == Some(Parsed(list, rest))
    decreases |list|
  {
    hide InstructionBytes, ParseInstruction;
    if list == [] {
      assert [] + rest == rest;
    } else {
      InstructionsCons(list);
      var first, more := InstructionBytes(list[0]).value, InstructionsBytes(list[1..]).value;
      assert InstructionsBytes(list).value + rest == first + (more + rest);
      InstructionRoundTrip(list[0], more + rest);
      InstructionsRoundTrip(list[1..], rest);
      assert list == [list[0]] + list[1..];
    }
  }

  /** What a serialisable message carries. */
  function Raw(m: Message): (r: RawMessage)
    requires Serialize(m).Some?
  {
    KeysValid(m.accountKeys);
    RawMessage(m.header, RawKeys(m.accountKeys), Key32(m.recentBlockhash).value, m.instructions)
  }

  /** Parsing a serialised message followed by anything gives back the header, the 32-byte keys, the
      blockhash, the instructions, and that suffix. */
  lemma SerializeRoundTrip(m: Message, rest: seq<Byte>)
    requires Serialize(m).Some?
    ensures Parse(Serialize(m).value + rest) == Some(Parsed(Raw(m), rest))
  {
    hide Compact, ReadCompact, Keys, Key32, InstructionsBytes, Take, ParseKeys, ParseInstructions;
    KeysValid(m.accountKeys);
    var n, keys := Compact(|m.accountKeys|).value, Keys(m.accountKeys).value;
    var hash, k, list := Key32(m.recentBlockhash).value, Compact(|m.instructions|).value, InstructionsBytes(m.instructions).value;
    var b := Serialize(m).value + rest;
    Layout(HeaderBytes(m.header), n, keys, hash, k, list, rest);
    assert b[..3] == HeaderBytes(m.header);
    CompactRoundTrip(|m.accountKeys|, keys + (hash + (k + (list + rest))));
    ParseKeysRoundTrip(m.accountKeys, hash + (k + (list + rest)));
    KeyLength(m.recentBlockhash);
    TakeExact(hash, k + (list + rest));
    CompactRoundTrip(|m.instructions|, list + rest);
    InstructionsRoundTrip(m.instructions, rest);
  }

  lemma KeyLength(text: string)
    requires Key32(text).Some?
    ensures |Key32(text).value| == 32
  {
  }

  lemma Layout(h: seq<Byte>, n: seq<Byte>, keys: seq<Byte>, hash: seq<Byte>, k: seq<Byte>, list: seq<Byte>, rest: seq<Byte>)
    requires |h| == 3
    ensures var b := h + n + keys + hash + k + list + rest;
            |b| >= 3 && b[..3] == h && b[3..] == n + (keys + (hash + (k + (list + rest))))
  {
  }

  lemma Key32Injective(a: string, b: string)
    requires Key32(a).Some? && Key32(a) == Key32(b)
    ensures a == b
  {
    hide Decode;
    DecodeInjective(a, b);
  }

  /** The format is injective: no two messages share their bytes, whatever follows them. */
  lemma SerializeInjective(m: Message, n: Message, x: seq<Byte>, y: seq<Byte>)
    requires Serialize(m).Some? && Serialize(n).Some?
    requires Serialize(m).value + x == Serialize(n).value + y
    ensures m == n && x == y
  {
    hide Serialize, Key32, Keys, Parse;
    SerializeRoundTrip(m, x);
    SerializeRoundTrip(n, y);
    RawInjective(m, n);
  }

  lemma RawInjective(m: Message, n: Message)
    requires Serialize(m).Some? && Serialize(n).Some? && Raw(m) == Raw(n)
    ensures m == n
  {
    hide Key32, Keys, Compact, InstructionsBytes;
    KeysValid(m.accountKeys);
    KeysValid(n.accountKeys);
    Key32Injective(m.recentBlockhash, n.recentBlockhash);
    assert |m.accountKeys| == |RawKeys(m.accountKeys)| == |n.accountKeys|;
    forall i | 0 <= i < |m.accountKeys| ensures m.accountKeys[i] == n.accountKeys[i] {
      assert RawKeys(m.accountKeys)[i] == RawKeys(n.accountKeys)[i];
      Key32Injective(m.accountKeys[i], n.accountKeys[i]);
    }
    assert m.accountKeys == n.accountKeys;
  }

  // ----- Where everything is -----

  /** A 32-byte key is the base58 text of its bytes. */
  lemma Key32Means(text: string, b: seq<Byte>)
    ensures Key32(text) == Some(b) <==> |b| == 32 && text == Encode(b)
  {
    DecodeEncode(b);
    hide Encode;
    if Key32(text) == Some(b) {
      EncodeDecode(text);
    }
  }

  lemma {:induction false} KeyAt(texts: seq<string>, i: nat)
    requires Keys(texts).Some? && i <= |texts|
    ensures |Keys(texts).value| == 32 * |texts|
    ensures i < |texts| ==> Key32(texts[i]) == Some(Keys(texts).value[32 * i..32 * i + 32])
    decreases |texts|
  {
    hide Key32;
    if texts != [] {
      var n := |texts| - 1;
      KeyLength(texts[n]);
      KeyAt(texts[..n], if i < n then i else 0);
      var a, b := Keys(texts[..n]).value, Key32(texts[n]).value;
      assert Keys(texts).value == a + b;
      if i < n {
        assert (a + b)[32 * i..32 * i + 32] == a[32 * i..32 * i + 32];
        assert texts[..n][i] == texts[i];
      } else if i == n {
        assert (a + b)[32 * n..32 * n + 32] == b;
      }
    }
  }

  /** The bytes of a serialised message, by position: the three header bytes, the number of keys, the keys
      in order, the blockhash, the number of instructions, the instructions. */
  lemma MessageLayout(m: Message, b: seq<Byte>, n: seq<Byte>, k: seq<Byte>, list: seq<Byte>, i: nat)
    requires Serialize(m) == Some(b) && i < |m.accountKeys|
    requires Compact(|m.accountKeys|) == Some(n) && Compact(|m.instructions|) == Some(k)
    requires InstructionsBytes(m.instructions) == Some(list)
    ensures var at, size := 3 + |n|, 32 * |m.accountKeys|;
            && |b| >= at + size + 32
            && b[0] == m.header.signatures && b[1] == m.header.readonlySigned && b[2] == m.header.readonlyUnsigned
            && b[3..at] == n
            && Some(b[at + 32 * i..at + 32 * i + 32]) == Key32(m.accountKeys[i])
            && Some(b[at + size..at + size + 32]) == Key32(m.recentBlockhash)
            && b[at + size + 32..] == k + list
  {
    hide Compact, Keys, Key32, InstructionsBytes;
    var keys, hash := Keys(m.accountKeys).value, Key32(m.recentBlockhash).value;
    KeyAt(m.accountKeys, i);
    KeyLength(m.recentBlockhash);
    assert b == HeaderBytes(m.header) + n + keys + hash + (k + list);
    Positions(HeaderBytes(m.header), n, keys, hash, k + list, 32 * i);
  }

  lemma Positions(h: seq<Byte>, n: seq<Byte>, keys: seq<Byte>, hash: seq<Byte>, rest: seq<Byte>, i: nat)
    requires |h| == 3 && |hash| == 32 && i + 32 <= |keys|
    ensures var b, at := h + n + keys + hash + rest, 3 + |n|;
            && |b| >= at + |keys| + 32 && b[0] == h[0] && b[1] == h[1] && b[2] == h[2] && b[3..at] == n
            && b[at + i..at + i + 32] == keys[i..i + 32]
            && b[at + |keys|..at + |keys| + 32] == hash && b[at + |keys| + 32..] == rest
  {
  }

  /** Exactly which messages serialise: 32-byte keys and blockhash, and lengths within range. */
  lemma SerializesExactlyWhen(m: Message)
    ensures Serialize(m).Some? <==>
              |m.accountKeys| <= 2097151 && |m.instructions| <= 2097151 &&
              Key32(m.recentBlockhash).Some? &&
              (forall i :: 0 <= i < |m.accountKeys| ==> Key32(m.accountKeys[i]).Some?) &&
              (forall i :: 0 <= i < |m.instructions| ==>
                 |m.instructions[i].accounts| <= 2097151 && |m.instructions[i].data| <= 2097151)
  {
    hide Key32;
    KeysExactlyWhen(m.accountKeys);
    InstructionsExactlyWhen(m.instructions);
  }

  lemma {:induction false} KeysExactlyWhen(texts: seq<string>)
    ensures Keys(texts).Some? <==> forall i :: 0 <= i < |texts| ==> Key32(texts[i]).Some?
    decreases |texts|
  {
    hide Key32;
    if texts != [] {
      KeysExactlyWhen(texts[..|texts| - 1]);
    }
  }

  lemma {:induction false} InstructionsExactlyWhen(list: seq<Instruction>)
    ensures InstructionsBytes(list).Some? <==>
              forall i :: 0 <= i < |list| ==> |list[i].accounts| <= MAX_COMPACT && |list[i].data| <= MAX_COMPACT
    decreases |list|
  {
    if list != [] {
      InstructionsExactlyWhen(list[..|list| - 1]);
    }
  }

  // ----- Signed transactions -----

  const SIGNATURE_BYTES: nat := 64

  function SignaturesBytes(signatures: seq<seq<Byte>>): (r: Option<seq<Byte>>) {
    if signatures == [] then Some([]) else
      var last := signatures[|signatures| - 1];
      match SignaturesBytes(signatures[..|signatures| - 1])
      case Some(a) => if |last| == SIGNATURE_BYTES then Some(a + last) else None
      case None => None
  }

  function WithSignatures(m: Message, signatures: seq<seq<Byte>>): (r: Option<seq<Byte>>) {
    match (Compact(|signatures|), SignaturesBytes(signatures), Serialize(m))
    case (Some(n), Some(a), Some(b)) => Some(n + a + b)
    case _ => None
  }

  /** `AddSignature`: the signature count, the signature, the message. */
  method AddSignature(unsignedTx: seq<Byte>, signature: seq<Byte>) returns (r: Option<seq<Byte>>)
    ensures r.Some? <==> |signature| == 64
    ensures r.Some? ==> r.value == [1] + signature + unsignedTx
    ensures r.Some? ==> r.value == EnclaveLayout(signature, unsignedTx)
  {
    if |signature| != SIGNATURE_BYTES {
      return None;
    }
    var n := Compact(1);
    if n.None? {
      return None;
    }
    var buf := n.value;
    buf := buf + signature;
    buf := buf + unsignedTx;
    r := Some(buf);
  }

  /** `SerializeWithSignatures`. */
  method SerializeWithSignatures(m: Message, signatures: seq<seq<Byte>>) returns (r: Option<seq<Byte>>)
    ensures r == WithSignatures(m, signatures)
  {
    hide Compact, Serialize;
    var n := Compact(|signatures|);
    if n.None? {
      return None;
    }
    var buf := n.value;
    for i := 0 to |signatures|
      invariant SignaturesBytes(signatures[..i]).Some?
      invariant buf == n.value + SignaturesBytes(signatures[..i]).value
    {
      assert signatures[..i + 1][..i] == signatures[..i];
      if |signatures[i]| != SIGNATURE_BYTES {
        SignaturesFail(signatures, i);
        return None;
      }
      buf := buf + signatures[i];
    }
    assert signatures[..|signatures|] == signatures;
    var message := SerializeMessage(m);
    if message.None? {
      return None;
    }
    r := Some(buf + message.value);
  }

  lemma {:induction false} SignaturesFail(signatures: seq<seq<Byte>>, i: nat)
    requires i < |signatures| && |signatures[i]| != SIGNATURE_BYTES
    ensures SignaturesBytes(signatures).None?
    decreases |signatures|
  {
    if i < |signatures| - 1 {
      SignaturesFail(signatures[..|signatures| - 1], i);
    }
  }

  /** The layout the enclave builds before broadcasting. */
  function EnclaveLayout(signature: seq<Byte>, unsignedTx: seq<Byte>): (r: seq<Byte>) {
    [1] + signature + unsignedTx
  }

  /** The three ways of attaching one signature produce the same bytes, and none succeeds on a
      signature of another size. */
  lemma OneSignatureLayoutsAgree(m: Message, signature: seq<Byte>)
    requires Serialize(m).Some?
    ensures WithSignatures(m, [signature])
         == if |signature| == 64 then Some([1] + signature + Serialize(m).value) else None
    ensures EnclaveLayout(signature, Serialize(m).value) == [1] + signature + Serialize(m).value
  {
    hide Serialize;
    assert [signature][..0] == [];
    assert SignaturesBytes([]) == Some([]);
    assert [] + signature == signature;
  }

  // ----- Reading signed transactions -----

  datatype SignedMessage = SignedMessage(signatures: seq<seq<Byte>>, message: RawMessage)

  function ParseSignatures(b: seq<Byte>, n: nat): (r: Option<Parsed<seq<seq<Byte>>>>)
    decreases n
  {
    if n == 0 then Some(Parsed([], b)) else
      match Take(b, SIGNATURE_BYTES)
      case None => None
      case Some(first) =>
        match ParseSignatures(first.rest, n - 1)
        case None => None
        case Some(more) => Some(Parsed([first.value] + more.value, more.rest))
  }

  function ParseSigned(b: seq<Byte>): (r: Option<Parsed<SignedMessage>>) {
    match ReadCompact(b)
    case None => None
    case Some(n) =>
      match ParseSignatures(n.rest, n.value)
      case None => None
      case Some(signatures) =>
        match Parse(signatures.rest)
        case None => None
        case Some(m) => Some(Parsed(SignedMessage(signatures.value, m.value), m.rest))
  }

  lemma {:induction false} SignaturesCons(list: seq<seq<Byte>>)
    requires list != [] && SignaturesBytes(list).Some?
    ensures |list[0]| == SIGNATURE_BYTES && SignaturesBytes(list[1..]).Some?
    ensures SignaturesBytes(list).value == list[0] + SignaturesBytes(list[1..]).value
    decreases |list|
  {
    var n := |list| - 1;
    if n == 0 {
      assert list[..0] == [] && list[1..] == [];
    } else {
      SignaturesCons(list[..n]);
      assert list[..n][1..] == list[1..][..n - 1];
      var a, b, c := list[0], SignaturesBytes(list[..n][1..]).value, list[n];
      assert SignaturesBytes(list[1..]).value == b + c;
      assert (a + b) + c == a + (b + c);
    }
  }

  lemma {:induction false} SignaturesRoundTrip(list: seq<seq<Byte>>, rest: seq<Byte>)
    requires SignaturesBytes(list).Some?
    ensures ParseSignatures(SignaturesBytes(list).value + rest, |list|) == Some(Parsed(list, rest))
    decreases |list|
  {
    hide SignaturesBytes, Take;
    if list == [] {
      NoSignatures();
      assert [] + rest == rest;
    } else {
      SignaturesCons(list);
      var more := SignaturesBytes(list[1..]).value;
      assert SignaturesBytes(list).value + rest == list[0] + (more + rest);
      TakeExact(list[0], more + rest);
      SignaturesRoundTrip(list[1..], rest);
      assert list == [list[0]] + list[1..];
    }
  }

  lemma NoSignatures()
    ensures SignaturesBytes([]) == Some([])
  {
  }

  lemma {:induction false} SignatureBytesAt(list: seq<seq<Byte>>, i: nat)
    requires SignaturesBytes(list).Some? && i <= |list|
    ensures |SignaturesBytes(list).value| == 64 * |list|
    ensures i < |list| ==> SignaturesBytes(list).value[64 * i..64 * i + 64] == list[i]
    decreases |list|
  {
    if list != [] {
      var n := |list| - 1;
      SignatureBytesAt(list[..n], if i < n then i else 0);
      var a, b := SignaturesBytes(list[..n]).value, list[n];
      assert SignaturesBytes(list).value == a + b;
      if i < n {
        assert (a + b)[64 * i..64 * i + 64] == a[64 * i..64 * i + 64];
      } else if i == n {
        assert (a + b)[64 * n..64 * n + 64] == b;
      }
    }
  }

  /** The bytes of a signed transaction, by position: the number of signatures, the signatures in order,
      the message. */
  lemma SignedLayout(m: Message, signatures: seq<seq<Byte>>, i: nat)
    requires WithSignatures(m, signatures).Some? && i < |signatures|
    ensures var b, c := WithSignatures(m, signatures).value, Compact(|signatures|).value;
            && |b| >= |c| + 64 * |signatures| && b[..|c|] == c
            && b[|c| + 64 * i..|c| + 64 * i + 64] == signatures[i]
            && Some(b[|c| + 64 * |signatures|..]) == Serialize(m)
  {
    hide Compact, Serialize, SignaturesBytes;
    SignatureBytesAt(signatures, i);
    var c, a, rest := Compact(|signatures|).value, SignaturesBytes(signatures).value, Serialize(m).value;
    assert (c + a + rest)[|c| + 64 * i..|c| + 64 * i + 64] == a[64 * i..64 * i + 64];
    assert (c + a + rest)[|c| + |a|..] == rest;
  }

  /** Parsing a signed transaction followed by anything gives back its signatures, the parts of its
      message, and that suffix. */
  lemma SignedRoundTrip(m: Message, signatures: seq<seq<Byte>>, rest: seq<Byte>)
    requires WithSignatures(m, signatures).Some?
    ensures Serialize(m).Some?
    ensures ParseSigned(WithSignatures(m, signatures).value + rest)
         == Some(Parsed(SignedMessage(signatures, Raw(m)), rest))
  {
    hide Compact, ReadCompact, SignaturesBytes, ParseSignatures, Serialize, Parse, Raw;
    var n, a, b := Compact(|signatures|).value, SignaturesBytes(signatures).value, Serialize(m).value;
    assert n + a + b + rest == n + (a + (b + rest));
    CompactRoundTrip(|signatures|, a + (b + rest));
    SignaturesRoundTrip(signatures, b + rest);
    SerializeRoundTrip(m, rest);
  }

  /** No two signed transactions share their bytes, whatever follows them. */
  lemma SignedInjective(m: Message, a: seq<seq<Byte>>, x: seq<Byte>, n: Message, b: seq<seq<Byte>>, y: seq<Byte>)
    requires WithSignatures(m, a).Some? && WithSignatures(n, b).Some?
    requires WithSignatures(m, a).value + x == WithSignatures(n, b).value + y
    ensures m == n && a == b && x == y
  {
    hide WithSignatures, ParseSigned, Serialize, Raw;
    SignedRoundTrip(m, a, x);
    SignedRoundTrip(n, b, y);
    RawInjective(m, n);
  }

  // ----- Native transfers -----

  const SYSTEM_PROGRAM: string := "11111111111111111111111111111111"

  /** Instruction index 2 in four bytes, then the amount in eight, little-endian. */
  function TransferData(lamports: nat): (r: seq<Byte>) {
    ToLE(2, 4) + ToLE(lamports, 8)
  }

  function TransferMessage(from: string, to: string, lamports: nat, blockhash: string): (r: Message) {
    Message(Header(1, 0, 1), [from, to, SYSTEM_PROGRAM], blockhash, [Instruction(2, [0, 1], TransferData(lamports))])
  }

  lemma TransferDataInjective(a: nat, b: nat)
    requires a < Pow256(8) && b < Pow256(8) && TransferData(a) == TransferData(b)
    ensures a == b
  {
    hide ToLE, FromLE, Pow256;
    assert TransferData(a)[4..] == ToLE(a, 8) && TransferData(b)[4..] == ToLE(b, 8);
    LittleEndianRoundTrip(a, 8);
    LittleEndianRoundTrip(b, 8);
  }

  lemma TransferDataIs(lamports: nat)
    ensures TransferData(lamports) == [2, 0, 0, 0] + ToLE(lamports, 8)
    ensures |TransferData(lamports)| == 12
  {
    assert ToLE(2, 4) == [2] + ToLE(0, 3);
    assert ToLE(0, 3) == [0] + ToLE(0, 2) && ToLE(0, 2) == [0] + ToLE(0, 1) && ToLE(0, 1) == [0] + ToLE(0, 0);
  }

  lemma SmallCompact(n: int)
    requires 0 <= n < 128
    ensures Compact(n) == Some([n])
  {
  }

  lemma TransferInstructions(lamports: nat)
    ensures InstructionsBytes([Instruction(2, [0, 1], TransferData(lamports))])
         == Some([2, 2, 0, 1, 12, 2, 0, 0, 0] + ToLE(lamports, 8))
  {
    TransferDataIs(lamports);
    hide Compact, ToLE, TransferData;
    var i := Instruction(2, [0, 1], TransferData(lamports));
    SmallCompact(2);
    SmallCompact(12);
    assert [i][..0] == [];
    assert InstructionsBytes([]) == Some([]);
    assert InstructionBytes(i) == Some([2] + [2] + [0, 1] + [12] + TransferData(lamports));
    assert [2] + [2] + [0, 1] + [12] + ([2, 0, 0, 0] + ToLE(lamports, 8))
        == [2, 2, 0, 1, 12, 2, 0, 0, 0] + ToLE(lamports, 8);
    assert [] + ([2, 2, 0, 1, 12, 2, 0, 0, 0] + ToLE(lamports, 8)) == [2, 2, 0, 1, 12, 2, 0, 0, 0] + ToLE(lamports, 8);
  }

  /** The bytes of a native transfer, all of them: one signature required and the program read-only; three
      keys, namely sender, receiver and the system program's 32 zero bytes; the blockhash; one instruction
      for the third key, over the first two, carrying transfer index 2 and the amount. */
  lemma TransferBytes(from: string, to: string, lamports: nat, hash: string)
    requires Key32(from).Some? && Key32(to).Some? && Key32(hash).Some?
    ensures Serialize(TransferMessage(from, to, lamports, hash))
         == Some([1, 0, 1] + [3] + Key32(from).value + Key32(to).value + Repeat<nat>(0, 32) + Key32(hash).value
                 + [1] + ([2, 2, 0, 1, 12, 2, 0, 0, 0] + ToLE(lamports, 8)))
  {
    var m := TransferMessage(from, to, lamports, hash);
    var list := [2, 2, 0, 1, 12, 2, 0, 0, 0] + ToLE(lamports, 8);
    var a, b, c, h := Key32(from).value, Key32(to).value, Repeat<nat>(0, 32), Key32(hash).value;
    TransferInstructions(lamports);
    SystemProgramKey();
    SmallCompact(3);
    SmallCompact(1);
    ThreeKeys(from, to, SYSTEM_PROGRAM);
    hide Compact, Key32, InstructionsBytes, ToLE, TransferData, Keys, Serialize;
    SerializeIs(m, [3], a + b + c, h, [1], list);
    Flatten([1, 0, 1], [3], a, b, c, h, [1], list);
  }

  lemma SerializeIs(m: Message, n: seq<Byte>, keys: seq<Byte>, hash: seq<Byte>, k: seq<Byte>, list: seq<Byte>)
    requires Compact(|m.accountKeys|) == Some(n) && Keys(m.accountKeys) == Some(keys)
    requires Key32(m.recentBlockhash) == Some(hash)
    requires Compact(|m.instructions|) == Some(k) && InstructionsBytes(m.instructions) == Some(list)
    ensures Serialize(m) == Some([m.header.signatures, m.header.readonlySigned, m.header.readonlyUnsigned]
                                 + n + keys + hash + k + list)
  {
    hide Compact, Keys, Key32, InstructionsBytes;
  }

  lemma Flatten(h: seq<Byte>, n: seq<Byte>, a: seq<Byte>, b: seq<Byte>, c: seq<Byte>, x: seq<Byte>, k: seq<Byte>, l: seq<Byte>)
    ensures h + n + (a + b + c) + x + k + l == h + n + a + b + c + x + k + l
  {
  }

  lemma ThreeKeys(a: string, b: string, c: string)
    requires Key32(a).Some? && Key32(b).Some? && Key32(c).Some?
    ensures Keys([a, b, c]) == Some(Key32(a).value + Key32(b).value + Key32(c).value)
  {
    hide Key32;
    assert [a, b, c][..2] == [a, b] && [a, b][..1] == [a] && [a][..0] == [];
    assert Keys([]) == Some([]);
    assert [] + Key32(a).value == Key32(a).value;
    assert Keys([a]) == Some(Key32(a).value);
    assert Keys([a, b]) == Some(Key32(a).value + Key32(b).value);
  }

  /** What a reader of the wire makes of a native transfer: the account debited is the sender's and is
      covered by the one required signature, the account credited is the receiver's, the program is the
      system program, and the data is a transfer of the amount. */
  lemma TransferReads(from: string, to: string, lamports: nat, hash: string, rest: seq<Byte>)
    requires lamports < Pow256(8)
    requires Serialize(TransferMessage(from, to, lamports, hash)).Some?
    ensures var r := Parse(Serialize(TransferMessage(from, to, lamports, hash)).value + rest);
            r.Some? && r.value.rest == rest &&
            var m := r.value.value;
            && m.header == Header(1, 0, 1) && |m.accountKeys| == 3 && |m.instructions| == 1
            && Some(m.recentBlockhash) == Key32(hash)
            && var i := m.instructions[0];
               && i.programIdIndex == 2 && m.accountKeys[2] == Repeat<nat>(0, 32)
               && |i.accounts| == 2 && i.accounts[0] < m.header.signatures && i.accounts[1] < 3
               && Some(m.accountKeys[i.accounts[0]]) == Key32(from)
               && Some(m.accountKeys[i.accounts[1]]) == Key32(to)
               && |i.data| == 12 && i.data[..4] == [2, 0, 0, 0] && FromLE(i.data[4..]) == lamports
  {
    var m := TransferMessage(from, to, lamports, hash);
    TransferSerializes(from, to, lamports, hash);
    SerializeRoundTrip(m, rest);
    KeysAreSome(m);
    SystemProgramKey();
    TransferDataIs(lamports);
    LittleEndianRoundTrip(lamports, 8);
    hide Serialize, Parse, Key32, ToLE, FromLE, Pow256, TransferData, Keys;
    var raw := Raw(m);
    assert raw.accountKeys[0] == Key32(from).value && raw.accountKeys[1] == Key32(to).value;
    assert raw.accountKeys[2] == Repeat<nat>(0, 32);
    assert raw.instructions[0].data[4..] == ToLE(lamports, 8);
  }

  lemma KeysAreSome(m: Message)
    requires Serialize(m).Some?
    ensures forall i :: 0 <= i < |m.accountKeys| ==> Key32(m.accountKeys[i]).Some?
    ensures Key32(m.recentBlockhash).Some?
    ensures Raw(m) == RawMessage(m.header, RawKeys(m.accountKeys), Key32(m.recentBlockhash).value, m.instructions)
  {
    hide Key32, Compact, InstructionsBytes, Keys;
    KeysValid(m.accountKeys);
  }

  /** Distinct transfers have distinct bytes, for every 64-bit amount. */
  lemma TransfersDistinct(from: string, to: string, lamports: nat, hash: string,
                          from': string, to': string, lamports': nat, hash': string)
    requires lamports < Pow256(8) && lamports' < Pow256(8)
    requires var m, m' := TransferMessage(from, to, lamports, hash), TransferMessage(from', to', lamports', hash');
             Serialize(m).Some? && Serialize(m) == Serialize(m')
    ensures from == from' && to == to' && lamports == lamports' && hash == hash'
  {
    hide Serialize, TransferData, Pow256;
    var m, m' := TransferMessage(from, to, lamports, hash), TransferMessage(from', to', lamports', hash');
    SerializeInjective(m, m', [], []);
    assert m.accountKeys[0] == m'.accountKeys[0] && m.accountKeys[1] == m'.accountKeys[1];
    assert m.instructions[0].data == m'.instructions[0].data;
    TransferDataInjective(lamports, lamports');
  }

  /** A transfer serialises exactly when both addresses and the blockhash are 32 bytes of base58. */
  lemma TransferSerializes(from: string, to: string, lamports: nat, hash: string)
    ensures Serialize(TransferMessage(from, to, lamports, hash)).Some? <==>
              Key32(from).Some? && Key32(to).Some? && Key32(hash).Some?
  {
    hide Key32, Serialize, TransferData;
    var m := TransferMessage(from, to, lamports, hash);
    SystemProgramKey();
    TransferDataIs(lamports);
    SerializesExactlyWhen(m);
    assert m.accountKeys[0] == from && m.accountKeys[1] == to && m.accountKeys[2] == SYSTEM_PROGRAM;
  }

  /** The system program's address is 32 zero bytes. */
  lemma SystemProgramKey()
    ensures Key32(SYSTEM_PROGRAM) == Some(Repeat<nat>(0, 32))
  {
    hide Decode, ToDigits, Chars;
    assert SYSTEM_PROGRAM == Repeat('1', 32);
    DecodeNumeral(32, 0);
    NoDigits();
    NoChars();
    NoBytes();
    var body := Chars(Reversed<nat>(ToDigits(0, 58)));
    assert body == "" && Repeat('1', 32) + body == SYSTEM_PROGRAM;
    assert Repeat<nat>(0, 32) + ToBytes(0) == Repeat<nat>(0, 32);
  }

  lemma NoChars()
    ensures Reversed<nat>([]) == [] && Chars([]) == ""
  {
  }

  lemma NoBytes()
    ensures ToBytes(0) == []
  {
  }
}
