/** Identities, keys, events and messages of the chat layer. */
module ChatTypes {

  import opened Wrappers

  datatype PublicKey = PublicKey(id: nat)

  /** An ECDH shared secret. */
  datatype Secret = Secret(id: nat)

  const HEX_DIGITS: string := "0123456789abcdef"

  predicate IsEventHex(s: string) {
    |s| == 64 && forall i :: 0 <= i < |s| ==> s[i] in HEX_DIGITS
  }

  /** An event id in its canonical text form. */
  type EventId = s: string | IsEventHex(s) witness seq(64, _ => '0')

  datatype Kind = GiftWrap | PrivateDirectMessage | OtherKind

  datatype Event = Event(
    id: EventId,
    kind: Kind,
    author: PublicKey,
    pTags: seq<PublicKey>,
    createdAt: int,
    ciphertext: string)

  datatype Decoded = Decoded(content: string, timestamp: int, sender: PublicKey, innerId: EventId)

  datatype ChatParty = BuyerParty | SellerParty

  /** Which chat a shared key belongs to. */
  datatype ChatKeyId =
    | OrderChat(orderId: string)
    | UserDisputeChat(orderId: string)
    | DisputeChat(disputeId: string, party: ChatParty)

  /** Routing data of one tracked chat. */
  datatype ChatTarget = ChatTarget(
    keyId: ChatKeyId,
    sharedKeys: Secret,
    signPubkey: PublicKey,
    localTradePubkey: Option<PublicKey>,
    allowedSigners: seq<PublicKey>)

  /** The cryptographic primitives, which this model takes as given. `fromHex` rebuilds a secret from
      its stored text, `signKey` derives pub(K_sign), and the two `open` functions decrypt and check
      an envelope at a given time. */
  datatype Crypto = Crypto(
    fromHex: string -> Option<Secret>,
    publicKey: Secret -> PublicKey,
    signKey: Secret -> Option<PublicKey>,
    openKind14: (Secret, seq<PublicKey>, Event, int) -> Option<Decoded>,
    openGiftWrap: (Secret, Event) -> Option<Decoded>)
  {
    /** A kind-14 envelope only opens to a message of an allowed signer. */
    ghost predicate ChecksSigner() {
      forall secret, allowed, event, now ::
        openKind14(secret, allowed, event, now).Some? ==>
          openKind14(secret, allowed, event, now).value.sender in allowed
    }

    /** Different secrets have different signing keys. */
    ghost predicate InjectiveSignKey() {
      forall a, b :: signKey(a).Some? && signKey(a) == signKey(b) ==> a == b
    }
  }
}
