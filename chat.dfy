// The chat composer shared by the two chat pages: a list of messages, the text being typed and
// the chosen channel. A message is sent only when the typed text is not blank.

module Chat {
  import opened Common

  datatype Author = Me | Other

  /** A chat message; `id` stands for the random UUID a sent message gets. */
  datatype ChatMessage = ChatMessage(id: string, author: Author, text: string)

  const Channels: seq<string> := ["Global", "Guild", "Trade", "Support"]

  /** The three messages every chat starts with. */
  const SeedMessages: seq<ChatMessage> := [
    ChatMessage("1", Other, "Howdy, partner"),
    ChatMessage("2", Me, "Yo! Anyone pulling on the new banner?"),
    ChatMessage("3", Other, "Saving my gold for the next rotation.")
  ]

  /** `input.trim().length > 0`. */
  predicate CanSend(input: string)
  {
    |Trim(input)| > 0
  }

  /** A sent text is not blank, has no white space at either end, and so trims to itself. */
  lemma SentTextTrimmed(input: string)
    requires CanSend(input)
    ensures var t := Trim(input); t != "" && !IsJsWhitespace(t[0]) && !IsJsWhitespace(t[|t| - 1])
    ensures Trim(Trim(input)) == Trim(input) && CanSend(Trim(input))
  {
    var a := TrimStart(input);
    var t := TrimEnd(a);
    assert t[0] == a[0];
    TrimIdentity(t);
  }

  class ChatComposer {
    var messages: seq<ChatMessage>
    var input: string
    var channel: string

    constructor ()
      ensures messages == SeedMessages && |messages| == 3
      ensures input == "" && channel == Channels[0]
    {
      messages := SeedMessages;
      input := "";
      channel := Channels[0];
    }

    /** The input box's `onChange`. */
    method SetInput(value: string)
      modifies this
      ensures input == value && messages == old(messages) && channel == old(channel)
    {
      input := value;
    }

    /** The channel selector's `onChange`. */
    method SetChannel(value: string)
      modifies this
      ensures channel == value && messages == old(messages) && input == old(input)
    {
      channel := value;
    }

    /** `sendMessage`: blank input changes nothing; otherwise one message by "me" holding the
        trimmed text is appended after the earlier ones and the input is cleared. */
    method SendMessage(newId: string)
      modifies this
      ensures channel == old(channel)
      ensures !CanSend(old(input)) ==> messages == old(messages) && input == old(input)
      ensures CanSend(old(input)) ==>
        messages == old(messages) + [ChatMessage(newId, Me, Trim(old(input)))] && input == ""
      ensures |messages| == |old(messages)| || |messages| == |old(messages)| + 1
      ensures forall i :: 0 <= i < |old(messages)| ==> messages[i] == old(messages)[i]
    {
      if !CanSend(input) {
        return;
      }
      var newMsg := ChatMessage(newId, Me, Trim(input));
      messages := messages + [newMsg];
      input := "";
    }

    /** `onKeyDown`: Enter sends, any other key does nothing. */
    method OnKeyDown(key: string, newId: string)
      modifies this
      ensures key != "Enter" ==> messages == old(messages) && input == old(input)
      ensures key == "Enter" && CanSend(old(input)) ==>
        messages == old(messages) + [ChatMessage(newId, Me, Trim(old(input)))] && input == ""
      ensures key == "Enter" && !CanSend(old(input)) ==> messages == old(messages) && input == old(input)
      ensures channel == old(channel)
    {
      if key == "Enter" {
        SendMessage(newId);
      }
    }
  }
}
