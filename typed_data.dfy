/** EIP-712 typed data as the transfer signatures use it: a domain, named
    struct types given as ordered field lists, a primary type and the message. */
module TypedData {
  import opened Wrappers
  import Pattern

  datatype Field = Field(name: string, typ: string)

  /** The EIP712Domain struct with the four members the forms fill in. */
  datatype Domain = Domain(name: string, version: string, chainId: int, verifyingContract: string)

  /** The Transfer struct's values.  `fid` is None when the form's parseInt
      gives NaN (its FID field is empty). */
  datatype Message = Message(fid: Option<int>, to: string, nonce: int, deadline: int)

  datatype Payload = Payload(domain: Domain, types: seq<(string, seq<Field>)>, primaryType: string, message: Message)

  /** The Transfer struct: fid, to, nonce, deadline, in that order. */
  const TransferFields: seq<Field> := [
    Field("fid", "uint256"), Field("to", "address"), Field("nonce", "uint256"), Field("deadline", "uint256")]

  function FieldNames(fields: seq<Field>): (names: seq<string>)
    ensures |names| == |fields|
    ensures forall i | 0 <= i < |fields| :: names[i] == fields[i].name
  {
    if fields == [] then [] else [fields[0].name] + FieldNames(fields[1..])
  }

  /** The Transfer members are named fid, to, nonce, deadline in that order,
      and typed uint256 except `to`, an address. */
  lemma TransferFieldOrder()
    ensures FieldNames(TransferFields) == ["fid", "to", "nonce", "deadline"]
    ensures forall i | 0 <= i < |TransferFields| ::
      TransferFields[i].typ == (if TransferFields[i].name == "to" then "address" else "uint256")
  {
  }

  predicate IsUint256(n: int) {
    0 <= n < 0x1_0000_0000_0000_0000_0000_0000_0000_0000_0000_0000_0000_0000_0000_0000_0000_0000
  }

  /** The value a message holds for a Transfer member, as the kind of value
      the member's type asks for; None for NaN or a member it lacks. */
  datatype Atom = Uint(n: int) | Address(a: string)

  function MessageMember(m: Message, name: string): Option<Atom> {
    if name == "fid" then (if m.fid.Some? then Some(Uint(m.fid.value)) else None)
    else if name == "to" then Some(Address(m.to))
    else if name == "nonce" then Some(Uint(m.nonce))
    else if name == "deadline" then Some(Uint(m.deadline))
    else None
  }

  predicate Fits(typ: string, a: Atom) {
    if typ == "uint256" then a.Uint? && IsUint256(a.n)
    else if typ == "address" then a.Address? && Pattern.AddressShape(a.a)
    else false
  }

  /** Every member the struct type declares has a value of its type in the
      message, so a wallet can encode it. */
  predicate Encodable(fields: seq<Field>, m: Message) {
    forall i | 0 <= i < |fields| ::
      MessageMember(m, fields[i].name).Some? && Fits(fields[i].typ, MessageMember(m, fields[i].name).value)
  }

  /** A Transfer message can be encoded exactly when its fid is a number, its
      `to` is a hex address and all three numbers are uint256 values. */
  lemma TransferEncodable(m: Message)
    ensures Encodable(TransferFields, m) <==>
      m.fid.Some? && IsUint256(m.fid.value) && Pattern.AddressShape(m.to) &&
      IsUint256(m.nonce) && IsUint256(m.deadline)
  {
    if m.fid.Some? && IsUint256(m.fid.value) && Pattern.AddressShape(m.to) && IsUint256(m.nonce) && IsUint256(m.deadline) {
      forall i | 0 <= i < |TransferFields|
        ensures MessageMember(m, TransferFields[i].name).Some? && Fits(TransferFields[i].typ, MessageMember(m, TransferFields[i].name).value)
      {
        assert i == 0 || i == 1 || i == 2 || i == 3;
      }
    }
    if Encodable(TransferFields, m) {
      assert TransferFields[0].name == "fid" && TransferFields[1].name == "to";
      assert TransferFields[2].name == "nonce" && TransferFields[3].name == "deadline";
    }
  }
}
