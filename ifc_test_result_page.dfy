/**
 * The embedded chat of the test-result page: an input box and a log of sent
 * messages. Sending is a guarded append; nothing is sent anywhere.
 */
module TestResult {
  import opened JsString

  datatype ChatEntry = ChatEntry(sender: string, message: string)

  const LocalSender := "You"

  class IfcTestResultPage {
    var chatInput: string
    var chatLog: seq<ChatEntry>

    constructor ()
      ensures chatInput == "" && chatLog == []
    {
      chatInput := "";
      chatLog := [];
    }

    /** The text area changes. */
    method EditChatInput(text: string)
      modifies this`chatInput
      ensures chatInput == text
    {
      chatInput := text;
    }

    /**
     * "Send": input that is blank once trimmed changes nothing; any other input is
     * appended, untrimmed, as a message from "You" after every earlier entry, and the
     * input is cleared.
     */
    method SendChat()
      modifies this
      ensures AllWhitespace(old(chatInput)) ==> chatLog == old(chatLog) && chatInput == old(chatInput)
      ensures !AllWhitespace(old(chatInput)) ==>
                && chatLog == old(chatLog) + [ChatEntry(LocalSender, old(chatInput))]
                && chatInput == ""
      ensures |chatLog| == |old(chatLog)| + (if AllWhitespace(old(chatInput)) then 0 else 1)
      ensures chatLog[..|old(chatLog)|] == old(chatLog)
    {
      TrimEmptyIffBlank(chatInput);
      if Trim(chatInput) == "" {
        return;
      }
      chatLog := chatLog + [ChatEntry(LocalSender, chatInput)];
      chatInput := "";
    }
  }
}
