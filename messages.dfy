/** The message panel of `src/Isk/messages.rs`: an optional prompt and a log
    in which a text logged several times in a row is kept once with a
    repeat count. */
module Messages {
  import opened Wrappers
  import opened Numerics

  /** One log line: its text and how many times in a row it was logged. */
  datatype Entry = Entry(text: string, count: u8)

  /** The shape `add_message` keeps: no empty text, every count at least 1,
      and two neighbouring lines share a text only when the earlier one's
      count is saturated. */
  ghost predicate Coalesced(msgs: seq<Entry>)
  {
    && (forall i :: 0 <= i < |msgs| ==> msgs[i].text != [] && 1 <= msgs[i].count)
    && (forall i, j :: 0 <= i && j == i + 1 && j < |msgs| && msgs[i].text == msgs[j].text ==>
                       msgs[i].count == U8_MAX)
  }

  /** The log after `add_message(src)`. */
  function Appended(msgs: seq<Entry>, src: string): seq<Entry>
  {
    if src == [] then msgs
    else if 0 < |msgs| && msgs[|msgs| - 1].text == src && msgs[|msgs| - 1].count < U8_MAX then
      msgs[|msgs| - 1 := Entry(src, msgs[|msgs| - 1].count + 1)]
    else msgs + [Entry(src, 1)]
  }

  /** `t` written `n` times. */
  function Repeat(t: string, n: nat): seq<string>
  {
    if n == 0 then [] else Repeat(t, n - 1) + [t]
  }

  /** The texts a log stands for, every line written out `count` times. */
  function Expand(msgs: seq<Entry>): seq<string>
  {
    if |msgs| == 0 then []
    else Expand(msgs[..|msgs| - 1]) + Repeat(msgs[|msgs| - 1].text, msgs[|msgs| - 1].count)
  }

  /** The log built by adding `texts` one by one to an empty panel. */
  function LogOf(texts: seq<string>): seq<Entry>
  {
    if |texts| == 0 then [] else Appended(LogOf(texts[..|texts| - 1]), texts[|texts| - 1])
  }

  /** `texts` without its empty strings. */
  function NonEmpty(texts: seq<string>): seq<string>
  {
    if |texts| == 0 then []
    else NonEmpty(texts[..|texts| - 1]) + (if texts[|texts| - 1] == [] then [] else [texts[|texts| - 1]])
  }

  /** `add_message` keeps the log coalesced. */
  lemma AppendedCoalesced(msgs: seq<Entry>, src: string)
    requires Coalesced(msgs)
    ensures Coalesced(Appended(msgs, src))
  {
    var r := Appended(msgs, src);
    if src != [] && !(0 < |msgs| && msgs[|msgs| - 1].text == src && msgs[|msgs| - 1].count < U8_MAX) {
      assert r == msgs + [Entry(src, 1)];
      forall i, j | 0 <= i && j == i + 1 && j < |r| && r[i].text == r[j].text
        ensures r[i].count == U8_MAX
      {
        if j < |msgs| {
          assert r[i] == msgs[i] && r[j] == msgs[j];
        }
      }
    }
  }

  /** Adding a non-empty text adds exactly that text to what the log stands
      for; adding the empty text adds nothing. */
  lemma ExpandAppended(msgs: seq<Entry>, src: string)
    ensures Expand(Appended(msgs, src)) == Expand(msgs) + (if src == [] then [] else [src])
  {
    var k := |msgs|;
    if src == [] {
      assert Expand(msgs) + [] == Expand(msgs);
    } else if 0 < k && msgs[k - 1].text == src && msgs[k - 1].count < U8_MAX {
      var r := Appended(msgs, src);
      assert r[..k - 1] == msgs[..k - 1];
      calc {
        Expand(r);
        Expand(msgs[..k - 1]) + Repeat(src, msgs[k - 1].count + 1);
        Expand(msgs[..k - 1]) + (Repeat(src, msgs[k - 1].count) + [src]);
        Expand(msgs) + [src];
      }
    } else {
      var r := msgs + [Entry(src, 1)];
      assert r[..k] == msgs;
      assert Repeat(src, 1) == [src];
    }
  }

  /** Whatever texts are added, the log stays coalesced and stands for
      exactly the non-empty ones, in order. */
  lemma {:induction false} LogOfFaithful(texts: seq<string>)
    ensures Coalesced(LogOf(texts))
    ensures Expand(LogOf(texts)) == NonEmpty(texts)
  {
    if |texts| > 0 {
      var init := texts[..|texts| - 1];
      LogOfFaithful(init);
      AppendedCoalesced(LogOf(init), texts[|texts| - 1]);
      ExpandAppended(LogOf(init), texts[|texts| - 1]);
    }
  }

  /** `msg_panel`. */
  class MsgPanel {
    var prompt: Option<string>
    var messages: seq<Entry>

    ghost predicate Valid()
      reads this
    {
      Coalesced(messages)
    }

    /** `msg_panel::new`: no prompt, empty log. */
    constructor ()
      ensures Valid() && prompt == None && messages == []
    {
      prompt, messages := None, [];
    }

    /** `prompt`. */
    function Prompt(): Option<string>
      reads this
    {
      prompt
    }

    /** `set_prompt`: the log is untouched. */
    method SetPrompt(src: string)
      modifies this
      ensures Prompt() == Some(src) && messages == old(messages)
    {
      prompt := Some(src);
    }

    /** `clear_prompt`: the log is untouched. */
    method ClearPrompt()
      modifies this
      ensures Prompt() == None && messages == old(messages)
    {
      prompt := None;
    }

    /** `add_message`: an empty text is ignored; a repeat of the last line
        bumps its count unless saturated; anything else is a new line with
        count 1. */
    method AddMessage(src: string)
      requires Valid()
      modifies this
      ensures Valid()
      ensures messages == Appended(old(messages), src)
      ensures Expand(messages) == Expand(old(messages)) + (if src == [] then [] else [src])
      ensures prompt == old(prompt)
    {
      AppendedCoalesced(messages, src);
      ExpandAppended(messages, src);
      if |src| == 0 {
        return;
      }
      var ub := |messages|;
      if 0 < ub && messages[ub - 1].text == src && U8_MAX > messages[ub - 1].count {
        messages := messages[ub - 1 := Entry(src, messages[ub - 1].count + 1)];
        return;
      }
      messages := messages + [Entry(src, 1)];
    }

    /** `message(n)`: line `n`, or nothing past the end of the log. */
    function Message(n: nat): (r: Option<Entry>)
      reads this
      ensures r.None? <==> n >= |messages|
      ensures r.Some? ==> r.value == messages[n]
    {
      if n >= |messages| then None else Some(messages[n])
    }
  }
}
