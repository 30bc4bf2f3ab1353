/**
 * The severity resolver of the base controller: the type and the icon of the
 * message button, each a single pass over the message list in which an Error
 * locks the result and Warning and Success may only raise it.
 */
module Severity {
  import opened Messages

  /** sap.m.ButtonType values used by the message button. */
  datatype ButtonType = Reject | Emphasized | Accept | Ghost

  const ErrorIcon: string := "sap-icon://error"
  const AlertIcon: string := "sap-icon://alert"
  const SuccessIcon: string := "sap-icon://message-success"
  const NeutralIcon: string := "sap-icon://warning2"

  /** One case of the switch in `getMessageButtonType`. A button type is never falsy, so other types keep it. */
  function UpgradeType(acc: ButtonType, t: MessageType): ButtonType
  {
    match t
    case Error => Reject
    case Warning => if acc != Reject then Emphasized else acc
    case Success => if acc != Reject && acc != Emphasized then Accept else acc
    case _ => acc
  }

  /** One case of the switch in `getMessageButtonIcon`. */
  function UpgradeIcon(acc: string, t: MessageType): string
  {
    match t
    case Error => ErrorIcon
    case Warning => if acc != ErrorIcon then AlertIcon else acc
    case Success => if acc != ErrorIcon && acc != AlertIcon then SuccessIcon else acc
    case _ => if acc == "" then NeutralIcon else acc
  }

  /** The tier a message list deserves: Error > Warning > Success > neutral. */
  ghost function DominantType(msgs: seq<Message>): ButtonType
  {
    if HasType(msgs, Error) then Reject
    else if HasType(msgs, Warning) then Emphasized
    else if HasType(msgs, Success) then Accept
    else Ghost
  }

  /** The icon that names each tier. */
  function IconFor(b: ButtonType): string
  {
    match b
    case Reject => ErrorIcon
    case Emphasized => AlertIcon
    case Accept => SuccessIcon
    case Ghost => NeutralIcon
  }

  lemma DominantTypeStep(msgs: seq<Message>, m: Message)
    ensures DominantType(msgs + [m]) == UpgradeType(DominantType(msgs), m.msgType)
  {
    HasTypeAppend(msgs, m, Error);
    HasTypeAppend(msgs, m, Warning);
    HasTypeAppend(msgs, m, Success);
  }

  lemma IconStep(b: ButtonType, t: MessageType)
    ensures UpgradeIcon(IconFor(b), t) == IconFor(UpgradeType(b, t))
  {
    assert ErrorIcon[11] == 'e' && AlertIcon[11] == 'a' && SuccessIcon[11] == 'm' && NeutralIcon[11] == 'w';
  }

  /** `getMessageButtonType` over an explicit message list. */
  method GetMessageButtonType(msgs: seq<Message>) returns (r: ButtonType)
    ensures r == Reject <==> HasType(msgs, Error)
    ensures r == DominantType(msgs)
  {
    r := Ghost;
    var i := 0;
    while i < |msgs|
      invariant 0 <= i <= |msgs|
      invariant r == DominantType(msgs[..i])
    {
      DominantTypeStep(msgs[..i], msgs[i]);
      assert msgs[..i + 1] == msgs[..i] + [msgs[i]];
      r := UpgradeType(r, msgs[i].msgType);
      i := i + 1;
    }
    assert msgs[..|msgs|] == msgs;
  }

  /** `getMessageButtonIcon`: the same precedence, so it always names the tier of the button type. */
  method GetMessageButtonIcon(msgs: seq<Message>) returns (r: string)
    ensures r == IconFor(DominantType(msgs))
  {
    r := NeutralIcon;
    var i := 0;
    while i < |msgs|
      invariant 0 <= i <= |msgs|
      invariant r == IconFor(DominantType(msgs[..i]))
    {
      DominantTypeStep(msgs[..i], msgs[i]);
      IconStep(DominantType(msgs[..i]), msgs[i].msgType);
      assert msgs[..i + 1] == msgs[..i] + [msgs[i]];
      r := UpgradeIcon(r, msgs[i].msgType);
      i := i + 1;
    }
    assert msgs[..|msgs|] == msgs;
  }

  /**
   * The result depends only on which messages are present: not on their
   * order, nor on how often each occurs.
   */
  lemma DominantTypeOrderIndependent(a: seq<Message>, b: seq<Message>)
    requires forall m :: m in a <==> m in b
    ensures DominantType(a) == DominantType(b)
  {
    forall t: MessageType ensures HasType(a, t) <==> HasType(b, t) {
      if HasType(a, t) {
        var m :| m in a && m.msgType == t;
        assert m in b;
      }
      if HasType(b, t) {
        var m :| m in b && m.msgType == t;
        assert m in a;
      }
    }
  }

  /** Information and None messages change neither the type nor the icon, wherever they stand. */
  lemma NeutralMessageIgnored(a: seq<Message>, m: Message, b: seq<Message>)
    requires m.msgType == Information || m.msgType == TypeNone
    ensures DominantType(a + [m] + b) == DominantType(a + b)
    ensures IconFor(DominantType(a + [m] + b)) == IconFor(DominantType(a + b))
  {
    forall t: MessageType | t != Information && t != TypeNone
      ensures HasType(a + [m] + b, t) <==> HasType(a + b, t)
    {
      if HasType(a + [m] + b, t) {
        var x :| x in a + [m] + b && x.msgType == t;
        assert x in a || x in b;
        assert x in a + b;
      }
      if HasType(a + b, t) {
        var x :| x in a + b && x.msgType == t;
        assert x in a || x in b;
        assert x in a + [m] + b;
      }
    }
  }

  /** An empty message list gives the neutral button and icon. */
  lemma EmptyIsNeutral()
    ensures DominantType([]) == Ghost && IconFor(DominantType([])) == NeutralIcon
  {
  }

  /** Each case only raises the tier, and once Reject is reached it stays. */
  lemma UpgradeOnlyRaises(acc: ButtonType, t: MessageType)
    ensures Rank(UpgradeType(acc, t)) >= Rank(acc)
    ensures acc == Reject ==> UpgradeType(acc, t) == Reject
  {
  }

  function Rank(b: ButtonType): nat
  {
    match b
    case Ghost => 0
    case Accept => 1
    case Emphasized => 2
    case Reject => 3
  }
}
