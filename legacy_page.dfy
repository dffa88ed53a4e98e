/** The first version of the home page (app/page.tsx): it shows the last
    chat message, when the model wrote it, cut into one card per question. */
module LegacyPage {
  import opened Optional
  import opened JsString

  datatype ChatMessage = ChatMessage(role: string, content: string)

  /** `lastMessage?.role === "assistant" ? lastMessage.content : null`. */
  function GeneratedBios(messages: seq<ChatMessage>): (r: Option<string>)
    ensures r.Some? <==> |messages| > 0 && messages[|messages| - 1].role == "assistant"
    ensures r.Some? ==> r.value == messages[|messages| - 1].content
  {
    if |messages| > 0 && messages[|messages| - 1].role == "assistant"
    then Some(messages[|messages| - 1].content)
    else None
  }

  /** The marker the answer is cut at. */
  const Marker := "2."

  /** Where the shown text starts: `generatedBios.indexOf("1") + 3`. */
  function Start(text: string): int {
    IndexOf(text, "1") + 3
  }

  /** The text after the start index: `generatedBios.substring(start)`. */
  function Body(text: string): string {
    Substring(text, Start(text))
  }

  /** `generatedBios.substring(generatedBios.indexOf("1") + 3).split("2.")`. */
  function Pieces(text: string): seq<string> {
    Split(Body(text), Marker)
  }

  /** The cards rendered for a conversation: nothing unless the last message
      is the model's and non-empty (`generatedBios && …`). */
  function Cards(messages: seq<ChatMessage>): (r: Option<seq<string>>)
    ensures r.Some? <==> Truthy(GeneratedBios(messages))
    ensures r.Some? ==> |r.value| >= 1
    ensures r.Some? ==> r.value == Pieces(GeneratedBios(messages).value)
  {
    var bios := GeneratedBios(messages);
    if Truthy(bios) then Some(Pieces(bios.value)) else None
  }

  /** A conversation whose last message is the user's renders nothing. */
  lemma UserLastRendersNothing(messages: seq<ChatMessage>)
    requires |messages| > 0 && messages[|messages| - 1].role != "assistant"
    ensures Cards(messages).None?
  {
  }

  /** Without any "1", `indexOf` gives -1 and the text is shown from index 2. */
  lemma NoOneStartsAtTwo(text: string)
    requires '1' !in text
    ensures Start(text) == 2
    ensures |text| >= 2 ==> Body(text) == text[2..]
  {
    IncludesChar(text, '1');
  }

  /** A start past the end leaves the empty string, which splits into one
      empty card. */
  lemma StartPastEnd(text: string)
    requires Start(text) >= |text|
    ensures Body(text) == ""
    ensures Pieces(text) == [""]
  {
  }

  /** The text is the part of the answer after the first "1" and the two
      characters following it (usually ". "). */
  lemma BodyAfterFirstOne(text: string)
    requires '1' in text
    ensures var i := IndexOf(text, "1");
      0 <= i < |text| && text[i] == '1' && '1' !in text[..i]
      && (i + 3 <= |text| ==> Body(text) == text[i + 3..])
  {
    var i := IndexOf(text, "1");
    IncludesChar(text, '1');
    OccursChar(text, '1', i);
    forall k | 0 <= k < i ensures text[k] != '1' {
      OccursChar(text, '1', k);
    }
  }

  /** No card contains the marker, and the cards joined with the marker give
      back the text they were cut from. */
  lemma PiecesPartitionBody(text: string)
    ensures forall k :: 0 <= k < |Pieces(text)| ==> !Includes(Pieces(text)[k], Marker)
    ensures Join(Pieces(text), Marker) == Body(text)
  {
    SplitPiecesFree(Body(text), Marker);
    JoinSplit(Body(text), Marker);
  }

  /** One card more than there are occurrences of the marker ("2." cannot
      overlap itself, so every occurrence is a cut). */
  lemma {:induction false} SplitCount(s: string)
    decreases |s|
    ensures |Split(s, Marker)| == Count(s, Marker) + 1
  {
    var i := IndexOf(s, Marker);
    if i < 0 {
      CountSkip(s, Marker, |s|);
      assert s[|s|..] == "";
    } else {
      SplitStep(s, Marker, i);
      CountSkip(s, Marker, i);
      var t := s[i..];
      assert OccursAt(t, Marker, 0) by {
        assert t[..2] == s[i..i + 2];
      }
      assert t[1..] == s[i + 1..];
      assert !OccursAt(s[i + 1..], Marker, 0) by {
        assert s[i + 1..][0] == s[i + 1] == '.';
      }
      assert s[i + 1..][1..] == s[i + 2..];
      SplitCount(s[i + 2..]);
    }
  }

  /** The number of cards is the number of markers in the text, plus one. */
  lemma CardCount(text: string)
    ensures |Pieces(text)| == Count(Body(text), Marker) + 1
  {
    SplitCount(Body(text));
  }
}
