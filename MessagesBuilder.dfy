/**
 * `MessagesBuilderService`: an append-only text buffer of report messages.
 * Each message is written as an empty line followed by the message and a
 * line break, so consecutive messages are separated by a blank line.
 */
module MessagesBuilder {
  import opened TextLines
  import opened Sequences

  /** The text a buffer holds once `messages` have been added to a fresh one, in order. */
  function Render(messages: seq<string>): (text: string)
    ensures |text| >= 2 * |messages|
    ensures text == "" <==> messages == []
  {
    if messages == [] then ""
    else Render(messages[..|messages| - 1]) + NewLine + messages[|messages| - 1] + NewLine
  }

  /** Adding two batches of messages one after the other renders the two texts one after the other. */
  lemma {:induction false} RenderConcat(first: seq<string>, second: seq<string>)
    ensures Render(first + second) == Render(first) + Render(second)
    decreases |second|
  {
    if second != [] {
      var n := |second|;
      var init, last := second[..n - 1], second[n - 1];
      assert (first + second)[..|first + second| - 1] == first + init;
      RenderConcat(first, init);
      AppendAssociative(Render(first), Render(init), NewLine + last + NewLine);
    } else {
      assert first + second == first;
    }
  }

  /** The text before further messages are added is a prefix of the text after. */
  lemma RenderIsMonotonic(first: seq<string>, second: seq<string>)
    ensures Render(first) <= Render(first + second)
  {
    RenderConcat(first, second);
  }

  class MessagesBuilderService {
    /** The content of `_MessagesStringBuilder`. */
    var text: string
    /** The messages added so far, in order. */
    ghost var Messages: seq<string>

    ghost predicate Valid()
      reads this
    {
      text == Render(Messages)
    }

    constructor ()
      ensures Valid() && Messages == [] && text == ""
    {
      text := "";
      Messages := [];
    }

    /** `AddMessage`: an empty line, then the message and a line break. */
    method AddMessage(message: string)
      requires Valid()
      modifies this
      ensures Valid()
      ensures Messages == old(Messages) + [message]
      ensures text == old(text) + NewLine + message + NewLine
    {
      text := text + NewLine;
      text := text + message + NewLine;
      Messages := Messages + [message];
      assert Messages[..|Messages| - 1] == old(Messages);
    }

    /** `Any`: the buffer holds some text, which is so exactly when a message was added. */
    method Any() returns (r: bool)
      requires Valid()
      ensures r <==> |text| > 0
      ensures r <==> Messages != []
    {
      r := |text| > 0;
    }

    /** `ToString`: the rendering of every message added, in insertion order. */
    method ToString() returns (s: string)
      requires Valid()
      ensures s == Render(Messages)
      ensures |s| >= 2 * |Messages|
    {
      s := text;
    }
  }
}
