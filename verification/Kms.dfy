/** The key management service behind every wrapped key: an abstract provider with the one
    law the rest of the system relies on, and the XOR mock client, which meets it. */
module Kms {
  import opened Wrappers
  import opened Utf8

  type KeyId = string

  /** A provider. `encrypt` takes the randomness of the call as an explicit argument. */
  datatype Provider = Provider(
    encrypt: (KeyId, nat, Bytes) -> Bytes,
    decrypt: (KeyId, Bytes) -> Option<Bytes>)

  /** What was encrypted under a key id decrypts under it, whatever randomness was drawn. */
  ghost predicate Lawful(kms: Provider) {
    forall id, salt, x {:trigger kms.encrypt(id, salt, x)} ::
      kms.decrypt(id, kms.encrypt(id, salt, x)) == Some(x)
  }

  /** `data` combined with the repeated master key. */
  function Xored(master: Bytes, data: Bytes): (r: Bytes)
    requires |master| > 0
    ensures |r| == |data|
    ensures forall i :: 0 <= i < |data| ==> r[i] == data[i] ^ master[i % |master|]
  {
    seq(|data|, i requires 0 <= i < |data| => data[i] ^ master[i % |master|])
  }

  lemma XoredTwice(master: Bytes, data: Bytes)
    requires |master| > 0
    ensures Xored(master, Xored(master, data)) == data
  {
    var back := Xored(master, Xored(master, data));
    forall i | 0 <= i < |data|
      ensures back[i] == data[i]
    {
      var m := master[i % |master|];
      assert back[i] == (data[i] ^ m) ^ m;
    }
  }

  /** The provider the mock client implements: both directions are the same XOR. */
  function MockProvider(master: Bytes): Provider
    requires |master| > 0
  {
    Provider((id, salt, x) => Xored(master, x), (id, c) => Some(Xored(master, c)))
  }

  lemma MockIsLawful(master: Bytes)
    requires |master| > 0
    ensures Lawful(MockProvider(master))
  {
    forall id: KeyId, salt: nat, x: Bytes
      ensures MockProvider(master).decrypt(id, MockProvider(master).encrypt(id, salt, x)) == Some(x)
    {
      XoredTwice(master, x);
    }
  }

  /** A byte string that decrypts to `x` is as long as the ciphertexts of `x` are. Authenticated
      ciphers and the mock are like that. */
  ghost predicate LengthRegular(kms: Provider) {
    forall id, salt, x, c {:trigger kms.encrypt(id, salt, x), kms.decrypt(id, c)} ::
      kms.decrypt(id, c) == Some(x) ==> |c| == |kms.encrypt(id, salt, x)|
  }

  ghost predicate IsMock(kms: Provider) {
    exists master: Bytes :: |master| > 0 && kms == MockProvider(master)
  }

  /** A provider with a key per key id, combining by XOR as the mock does. */
  function KeyedProvider(master: KeyId -> Byte): Provider {
    Provider((id, salt, x) => Xored([master(id)], x), (id, c) => Some(Xored([master(id)], c)))
  }

  lemma KeyedIsLawful(master: KeyId -> Byte)
    ensures Lawful(KeyedProvider(master)) && LengthRegular(KeyedProvider(master))
  {
    forall id: KeyId, salt: nat, x: Bytes
      ensures KeyedProvider(master).decrypt(id, KeyedProvider(master).encrypt(id, salt, x)) == Some(x)
    {
      XoredTwice([master(id)], x);
    }
    forall id: KeyId, salt: nat, x: Bytes, c: Bytes | KeyedProvider(master).decrypt(id, c) == Some(x)
      ensures |c| == |KeyedProvider(master).encrypt(id, salt, x)|
    {
      assert |Xored([master(id)], c)| == |c|;
    }
  }

  /** The development client. */
  class MockKmsClient {
    const masterKey: array<Byte>

    ghost predicate Valid()
      reads this
    {
      masterKey.Length == 32
    }

    /** The provider that this client's two methods implement. */
    ghost function Model(): Provider
      requires Valid()
      reads this, masterKey
    {
      MockProvider(masterKey[..])
    }

    constructor ()
      ensures Valid() && fresh(masterKey)
      ensures forall i :: 0 <= i < masterKey.Length ==> masterKey[i] == 0
    {
      masterKey := new Byte[32](_ => 0);
    }

    method Encrypt(keyId: KeyId, plaintext: array<Byte>) returns (ciphertext: array<Byte>)
      requires Valid()
      ensures fresh(ciphertext)
      ensures forall salt :: ciphertext[..] == Model().encrypt(keyId, salt, plaintext[..])
      ensures ciphertext.Length == plaintext.Length
              && forall i :: 0 <= i < plaintext.Length ==> ciphertext[i] == plaintext[i] ^ masterKey[i % 32]
    {
      ciphertext := new Byte[plaintext.Length];
      for i := 0 to plaintext.Length
        invariant forall j :: 0 <= j < i ==> ciphertext[j] == plaintext[j] ^ masterKey[j % masterKey.Length]
      {
        ciphertext[i] := plaintext[i] ^ masterKey[i % masterKey.Length];
      }
      assert ciphertext[..] == Xored(masterKey[..], plaintext[..]);
    }

    method Decrypt(keyId: KeyId, ciphertext: array<Byte>) returns (plaintext: array<Byte>)
      requires Valid()
      ensures fresh(plaintext)
      ensures Model().decrypt(keyId, ciphertext[..]) == Some(plaintext[..])
      ensures plaintext.Length == ciphertext.Length
              && forall i :: 0 <= i < ciphertext.Length ==> plaintext[i] == ciphertext[i] ^ masterKey[i % 32]
    {
      plaintext := new Byte[ciphertext.Length];
      for i := 0 to ciphertext.Length
        invariant forall j :: 0 <= j < i ==> plaintext[j] == ciphertext[j] ^ masterKey[j % masterKey.Length]
      {
        plaintext[i] := ciphertext[i] ^ masterKey[i % masterKey.Length];
      }
      assert plaintext[..] == Xored(masterKey[..], ciphertext[..]);
    }
  }
}
