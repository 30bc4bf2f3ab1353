/**
 * The message list that the UI5 message manager keeps for the view. The
 * controllers read it as control flow; here it is an explicit sequence.
 * Texts are symbolic i18n keys (or backend texts); the text a user sees is
 * determined by the key together with its positional parameters.
 */
module Messages {

  /** sap.ui.core.MessageType; `TypeNone` is MessageType.None. */
  datatype MessageType = Error | Warning | Success | Information | TypeNone

  datatype Message = Message(msgType: MessageType, text: string, params: seq<string>, code: string)

  /** A message without parameters and without a backend code, as `_addMessage` and `_addError` create. */
  function LocalMessage(msgType: MessageType, text: string): (m: Message)
    ensures m.msgType == msgType && m.text == text && m.params == [] && m.code == ""
  {
    Message(msgType, text, [], "")
  }

  /** Some message of the list has type `t`. */
  ghost predicate HasType(msgs: seq<Message>, t: MessageType)
  {
    exists m :: m in msgs && m.msgType == t
  }

  ghost predicate HasError(msgs: seq<Message>)
  {
    HasType(msgs, Error)
  }

  /** Some message of the list carries backend code `code`. */
  ghost predicate HasCode(msgs: seq<Message>, code: string)
  {
    exists m :: m in msgs && m.code == code
  }

  /** Some message shows the text `text` (a key without parameters). */
  ghost predicate HasText(msgs: seq<Message>, text: string)
  {
    exists m :: m in msgs && m.text == text && m.params == []
  }

  lemma HasTypeAppend(msgs: seq<Message>, m: Message, t: MessageType)
    ensures HasType(msgs + [m], t) <==> HasType(msgs, t) || m.msgType == t
  {
    if HasType(msgs + [m], t) {
      var x :| x in msgs + [m] && x.msgType == t;
      assert x in msgs || x == m;
    }
    if HasType(msgs, t) {
      var x :| x in msgs && x.msgType == t;
      assert x in msgs + [m];
    }
    assert m in msgs + [m];
  }

  /**
   * The error check of the goods-receipt controller (and the inline scan of
   * the purchase-order post response): an early-return search for a message
   * of type Error.
   */
  method CheckForErrors(msgs: seq<Message>) returns (found: bool)
    ensures found <==> HasError(msgs)
  {
    var i := 0;
    while i < |msgs|
      invariant 0 <= i <= |msgs|
      invariant forall k :: 0 <= k < i ==> msgs[k].msgType != Error
    {
      if msgs[i].msgType == Error {
        assert msgs[i] in msgs;
        return true;
      }
      i := i + 1;
    }
    found := false;
    assert forall m :: m in msgs ==> m.msgType != Error by {
      forall m | m in msgs ensures m.msgType != Error {
        var k :| 0 <= k < |msgs| && msgs[k] == m;
      }
    }
  }
}
