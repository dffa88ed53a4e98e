/** `POST /api/chat` (app/api/chat/route.ts): bump the global
    `coffeecounter`, then ask the language model for two interview
    questions about a biography, in a given tone. */
module Chat {
  import opened Optional
  import opened JsString

  // The prompt template, cut at the points its properties talk about.
  const Intro := "I am a podcast host preparing to interview a person with the following biography: \""
  const AfterBio := "\" \n        Based on this, "
  const Generate := "generate two "
  const QuestionsWord := " questions"
  const AfterAsk := " that directly relate to the biography provided. "
  const Humor := "The questions should contain humor and be slightly ridiculous."
  const Thoughtful := "The questions should be thoughtful and engaging."
  const LengthLead := " Ensure each question is concise and "
  const LengthRule := "under 250 characters"
  const FallbackLead := ".\n        If you can't come up with anything say you need more a more specific bio, "
  const FallbackRule := "do not make up a person"
  const Closing := ".\n        "

  /** The vibe the branch tests for. */
  const Funny := "Funny"

  /** The sentence chosen by `vibe === 'Funny' ? … : …`. */
  function Tone(vibe: string): string {
    if vibe == Funny then Humor else Thoughtful
  }

  /** Everything after the tone sentence. */
  function Tail(): string {
    LengthLead + LengthRule + FallbackLead + FallbackRule + Closing
  }

  /** The single user message sent to the model. */
  function Prompt(bio: string, vibe: string): string {
    Fill(Intro, bio, AfterBio + Generate, ToLower(vibe), QuestionsWord + AfterAsk, Tone(vibe), Tail())
  }

  /** The template's text and slots laid end to end. */
  function Fill(intro: string, bio: string, before: string, vibe: string, after: string, tone: string, tail: string): string {
    intro + bio + before + vibe + after + tone + tail
  }

  // ---------------------------------------------------------------------
  // Properties of the prompt

  predicate EndsWith(s: string, t: string) {
    |t| <= |s| && s[|s| - |t|..] == t
  }

  lemma FillBio(intro: string, bio: string, before: string, vibe: string, after: string, tone: string, tail: string)
    ensures var p, i := Fill(intro, bio, before, vibe, after, tone, tail), |intro|;
      i + |bio| + |before| <= |p| && p[..i] == intro && p[i..i + |bio|] == bio
      && p[i + |bio|..i + |bio| + |before|] == before
  {
    var p := Fill(intro, bio, before, vibe, after, tone, tail);
    var rest := vibe + after + tone + tail;
    assert p == intro + bio + before + rest;
  }

  lemma FillAsk(intro: string, bio: string, b1: string, b2: string, vibe: string, a1: string, a2: string, tone: string, tail: string)
    ensures OccursAt(Fill(intro, bio, b1 + b2, vibe, a1 + a2, tone, tail), b2 + vibe + a1, |intro| + |bio| + |b1|)
  {
    var x := intro + bio + b1;
    var y := a2 + tone + tail;
    assert Fill(intro, bio, b1 + b2, vibe, a1 + a2, tone, tail) == x + (b2 + vibe + a1) + y;
    InMiddle(x, b2 + vibe + a1, y);
  }

  lemma FillTone(intro: string, bio: string, before: string, vibe: string, after: string, tone: string, tail: string)
    ensures EndsWith(Fill(intro, bio, before, vibe, after, tone, tail), tone + tail)
  {
    var p := Fill(intro, bio, before, vibe, after, tone, tail);
    var head := intro + bio + before + vibe + after;
    assert p == head + (tone + tail);
    assert p[|head|..] == tone + tail;
  }

  lemma FillTail(head: string, t1: string, r1: string, t2: string, r2: string, t3: string)
    ensures OccursAt(head + (t1 + r1 + t2 + r2 + t3), r1, |head| + |t1|)
    ensures OccursAt(head + (t1 + r1 + t2 + r2 + t3), r2, |head| + |t1| + |r1| + |t2|)
  {
    var p := head + (t1 + r1 + t2 + r2 + t3);
    assert p == (head + t1) + r1 + (t2 + r2 + t3);
    InMiddle(head + t1, r1, t2 + r2 + t3);
    assert p == (head + t1 + r1 + t2) + r2 + t3;
    InMiddle(head + t1 + r1 + t2, r2, t3);
  }

  lemma InMiddle(a: string, p: string, b: string)
    ensures OccursAt(a + p + b, p, |a|)
  {
    assert (a + p + b)[|a|..|a| + |p|] == p;
  }

  lemma QuoteMarks()
    ensures |Intro| > 0 && Intro[|Intro| - 1] == '"'
    ensures |AfterBio + Generate| > 0 && (AfterBio + Generate)[0] == '"'
  {
  }

  /** The biography appears verbatim, between double quotes, right after the
      fixed opening sentence. */
  lemma BioQuotedVerbatim(bio: string, vibe: string)
    ensures var p, i := Prompt(bio, vibe), |Intro|;
      i + |bio| < |p| && p[..i] == Intro && p[i - 1] == '"'
      && p[i..i + |bio|] == bio && p[i + |bio|] == '"'
  {
    var before := AfterBio + Generate;
    FillBio(Intro, bio, before, ToLower(vibe), QuestionsWord + AfterAsk, Tone(vibe), Tail());
    QuoteMarks();
    var p, i := Prompt(bio, vibe), |Intro|;
    assert p[..i][i - 1] == Intro[i - 1];
    assert p[i + |bio|..i + |bio| + |before|][0] == before[0];
  }

  /** The prompt asks for two questions in the lower-cased vibe. */
  lemma AsksForTwo(bio: string, vibe: string)
    ensures Includes(Prompt(bio, vibe), Generate + ToLower(vibe) + QuestionsWord)
  {
    FillAsk(Intro, bio, AfterBio, Generate, ToLower(vibe), QuestionsWord, AfterAsk, Tone(vibe), Tail());
    IncludesAt(Prompt(bio, vibe), Generate + ToLower(vibe) + QuestionsWord, |Intro| + |bio| + |AfterBio|);
  }

  /** Every prompt carries the length limit and the instruction not to
      invent a person. */
  lemma FixedConstraints(bio: string, vibe: string)
    ensures Includes(Prompt(bio, vibe), LengthRule)
    ensures Includes(Prompt(bio, vibe), FallbackRule)
  {
    var head := Intro + bio + (AfterBio + Generate) + ToLower(vibe) + (QuestionsWord + AfterAsk) + Tone(vibe);
    assert Prompt(bio, vibe) == head + Tail();
    FillTail(head, LengthLead, LengthRule, FallbackLead, FallbackRule, Closing);
    IncludesAt(Prompt(bio, vibe), LengthRule, |head| + |LengthLead|);
    IncludesAt(Prompt(bio, vibe), FallbackRule, |head| + |LengthLead| + |LengthRule| + |FallbackLead|);
  }

  /** The prompt closes with the humour sentence exactly when the vibe is
      exactly "Funny", and with the thoughtful one exactly otherwise. */
  lemma ToneChosenByVibe(bio: string, vibe: string)
    ensures EndsWith(Prompt(bio, vibe), Humor + Tail()) <==> vibe == Funny
    ensures EndsWith(Prompt(bio, vibe), Thoughtful + Tail()) <==> vibe != Funny
  {
    var p := Prompt(bio, vibe);
    FillTone(Intro, bio, AfterBio + Generate, ToLower(vibe), QuestionsWord + AfterAsk, Tone(vibe), Tail());
    SentenceEndings();
    TailCharBefore(p, Humor, Tail());
    TailCharBefore(p, Thoughtful, Tail());
  }

  /** The two sentences differ just before their final '.'. */
  lemma SentenceEndings()
    ensures |Humor| >= 2 && |Thoughtful| >= 2
    ensures Humor[|Humor| - 2] == 's' && Thoughtful[|Thoughtful| - 2] == 'g'
  {
  }

  /** A string ending with `x + t` has `x`'s second-to-last character just
      before the last `|t| + 1` characters. */
  lemma TailCharBefore(p: string, x: string, t: string)
    requires |x| >= 2
    ensures EndsWith(p, x + t) ==> p[|p| - |t| - 2] == x[|x| - 2]
  {
    if EndsWith(p, x + t) {
      assert p[|p| - |x + t|..][|x| - 2] == (x + t)[|x| - 2];
    }
  }

  /** The vibes the generator page offers, "Professional" and "Casual",
      always get the thoughtful sentence. */
  lemma PageVibesAreThoughtful(bio: string, vibe: string)
    requires vibe == "Professional" || vibe == "Casual"
    ensures EndsWith(Prompt(bio, vibe), Thoughtful + Tail())
    ensures !EndsWith(Prompt(bio, vibe), Humor + Tail())
  {
    ToneChosenByVibe(bio, vibe);
  }

  // ---------------------------------------------------------------------
  // The route

  datatype Message = Message(role: string, content: string)

  /** The arguments of `openai.createChatCompletion`. */
  datatype CompletionRequest = CompletionRequest(model: string, stream: bool, messages: seq<Message>)

  /** The key-value store holding `coffeecounter` (a missing key counts as 0). */
  class Kv {
    var coffeecounter: int

    constructor (initial: int)
      ensures coffeecounter == initial
    {
      coffeecounter := initial;
    }

    /** `kv.incr('coffeecounter')`; `fails` stands for the store rejecting it. */
    method Incr(fails: bool) returns (ok: bool)
      modifies this
      ensures ok == !fails
      ensures coffeecounter == if ok then old(coffeecounter) + 1 else old(coffeecounter)
    {
      ok := !fails;
      if ok {
        coffeecounter := coffeecounter + 1;
      }
    }

    /** `kv.get('coffeecounter')` */
    method Get() returns (value: int)
      ensures value == coffeecounter
    {
      value := coffeecounter;
    }
  }

  /** The request the route sends to the model. */
  function Completion(bio: string, vibe: string): (r: CompletionRequest)
    ensures r.model == "gpt-3.5-turbo" && r.stream
    ensures |r.messages| == 1 && r.messages[0].role == "user"
    ensures r.messages[0].content == Prompt(bio, vibe)
  {
    CompletionRequest("gpt-3.5-turbo", true, [Message("user", Prompt(bio, vibe))])
  }

  /** The route. An awaited `kv.incr` that rejects fails the request before
      the model is asked; otherwise the counter has risen by exactly one when
      the model call is made, and stays risen whatever the model answers.
      `seen` is the value `kv.get` read back. */
  method Post(kv: Kv, vibe: string, bio: string, kvFails: bool)
    returns (sent: Option<CompletionRequest>, seen: Option<int>)
    modifies kv
    ensures kvFails ==> sent.None? && seen.None? && kv.coffeecounter == old(kv.coffeecounter)
    ensures !kvFails ==> kv.coffeecounter == old(kv.coffeecounter) + 1
    ensures !kvFails ==> seen == Some(old(kv.coffeecounter) + 1) && sent == Some(Completion(bio, vibe))
  {
    var ok := kv.Incr(kvFails);
    if !ok {
      return None, None;
    }
    var value := kv.Get();
    seen := Some(value);
    sent := Some(Completion(bio, vibe));
  }

  /** Two requests in a row raise the counter by two. */
  method PostTwice(kv: Kv, vibe: string, bio: string) returns (first: Option<CompletionRequest>, second: Option<CompletionRequest>)
    modifies kv
    ensures kv.coffeecounter == old(kv.coffeecounter) + 2
    ensures first == second
  {
    var seen1, seen2;
    first, seen1 := Post(kv, vibe, bio, false);
    second, seen2 := Post(kv, vibe, bio, false);
  }
}
