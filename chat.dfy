/**
 * The deterministic parts of a chat turn: the title of a new conversation,
 * the short-term history window sent to the model, the persona lookup, the
 * low-confidence pronunciation block, the cleaning of the model's raw reply
 * and the canned replies used when the call or the parse fails.
 */
module Chat {
  import opened Wrappers
  import opened Text

  // ----- conversation title -----

  const GeneralScenario := "general"

  /** Python `s[:n]` for `n >= 0`. */
  function Take(s: string, n: nat): (r: string)
    ensures r <= s
    ensures |r| == if |s| < n then |s| else n
  {
    if |s| < n then s else s[..n]
  }

  /**
   * The title a new conversation gets: `Rol: <Scenario>` for a role-play, or
   * the first 20 characters of the user's text followed by `...`.
   */
  function ChatTitle(scenario: string, userText: string): (r: string)
    ensures scenario != GeneralScenario ==> "Rol: " <= r && |r| == 5 + |scenario|
    ensures scenario == GeneralScenario ==>
              3 <= |r| <= 23 && r[|r| - 3..] == "..." && r[..|r| - 3] <= userText
              && |r| == (if |userText| < 20 then |userText| else 20) + 3
  {
    if scenario != GeneralScenario then "Rol: " + Capitalize(scenario)
    else Take(userText, 20) + "..."
  }

  /** A role-play title names its scenario, up to letter case. */
  lemma RolePlayTitleNamesScenario(scenario: string, userText: string)
    requires scenario != GeneralScenario && scenario != []
    ensures Lower(ChatTitle(scenario, userText)[5..]) == Lower(scenario)
  {
    var c := Capitalize(scenario);
    assert ChatTitle(scenario, userText)[5..] == c;
    assert Lower(c)[0] == LowerChar(UpperChar(scenario[0])) == LowerChar(scenario[0]);
    LowerIdempotent(scenario[1..]);
    assert Lower(c)[1..] == Lower(c[1..]);
    assert Lower(c) == [Lower(c)[0]] + Lower(c)[1..];
    assert Lower(scenario) == [Lower(scenario)[0]] + Lower(scenario[1..]);
  }

  // ----- history window -----

  /** A stored message: `rol` is 'usuario' for the user, anything else for the bot. */
  datatype Mensaje = Mensaje(rol: string, texto: string)

  datatype Role = User | Model
  /** One history entry for the model: `{'role': ..., 'parts': [texto]}`. */
  datatype Turn = Turn(role: Role, part: string)

  const HistorySize := 30

  function Reverse<T>(s: seq<T>): (r: seq<T>)
    ensures |r| == |s|
    ensures forall i :: 0 <= i < |s| ==> r[i] == s[|s| - 1 - i]
  {
    if s == [] then [] else Reverse(s[1..]) + [s[0]]
  }

  /** Python `s[a:b]` for `0 <= a <= b`: both ends clamped to the length. */
  function PySlice<T>(s: seq<T>, a: nat, b: nat): seq<T>
    requires a <= b
  {
    var hi := if b < |s| then b else |s|;
    var lo := if a < hi then a else hi;
    s[lo..hi]
  }

  /**
   * The window as the view computes it from the conversation `msgs` (oldest
   * first, the message just stored last): newest first, skip the newest, take
   * the next 30, and put them back in chronological order.
   */
  function HistoryWindow(msgs: seq<Mensaje>): (w: seq<Mensaje>)
    ensures |w| == if |msgs| <= 1 then 0 else if |msgs| - 1 < HistorySize then |msgs| - 1 else HistorySize
  {
    Reverse(PySlice(Reverse(msgs), 1, HistorySize + 1))
  }

  /** The window is the (at most) 30 messages just before the newest one, oldest first. */
  lemma HistoryWindowIsRecentPast(msgs: seq<Mensaje>)
    ensures var n := |msgs|;
      var lo := if n > HistorySize + 1 then n - HistorySize - 1 else 0;
      var hi := if n > 0 then n - 1 else 0;
      HistoryWindow(msgs) == msgs[lo..hi]
    ensures |HistoryWindow(msgs)| <= HistorySize
  {
    var n := |msgs|;
    var lo := if n > HistorySize + 1 then n - HistorySize - 1 else 0;
    var hi := if n > 0 then n - 1 else 0;
    var w := HistoryWindow(msgs);
    assert |w| == hi - lo;
    forall j | 0 <= j < |w|
      ensures w[j] == msgs[lo + j]
    {
    }
  }

  function RoleOf(m: Mensaje): Role
  {
    if m.rol == "usuario" then User else Model
  }

  /** The history entries sent to the model, one per window message, in order. */
  method BuildHistory(msgs: seq<Mensaje>) returns (h: seq<Turn>)
    ensures var w := HistoryWindow(msgs);
      |h| == |w| && forall i :: 0 <= i < |w| ==> h[i] == Turn(RoleOf(w[i]), w[i].texto)
    ensures forall i :: 0 <= i < |h| ==> (h[i].role == User <==> HistoryWindow(msgs)[i].rol == "usuario")
  {
    var w := HistoryWindow(msgs);
    h := [];
    var i := 0;
    while i < |w|
      invariant 0 <= i <= |w|
      invariant |h| == i
      invariant forall k :: 0 <= k < i ==> h[k] == Turn(RoleOf(w[k]), w[k].texto)
    {
      var role := if w[i].rol == "usuario" then User else Model;
      h := h + [Turn(role, w[i].texto)];
      i := i + 1;
    }
  }

  // ----- persona -----

  datatype Persona = General | Cafe | Airport | Interview | Doctor

  function ScenarioTag(p: Persona): string
  {
    match p
    case General => "general"
    case Cafe => "cafe"
    case Airport => "airport"
    case Interview => "interview"
    case Doctor => "doctor"
  }

  /** `roles.get(scenario, roles['general'])`. */
  function PersonaFor(scenario: string): (p: Persona)
    ensures p == General <==> scenario !in {"cafe", "airport", "interview", "doctor"}
    ensures p != General ==> ScenarioTag(p) == scenario
  {
    if scenario == "cafe" then Cafe
    else if scenario == "airport" then Airport
    else if scenario == "interview" then Interview
    else if scenario == "doctor" then Doctor
    else General
  }

  /** Each persona is selected by its own tag. */
  lemma PersonaTagRoundTrip(p: Persona)
    ensures PersonaFor(ScenarioTag(p)) == p
  {
  }

  // ----- pronunciation block -----

  /** Below this speech-recognition confidence the prompt asks for a pronunciation tip. */
  const PronunciationThreshold: real := 0.90
  /** Stands for the instruction text added to the prompt (its wording is not modelled). */
  const PronunciationInstruction := "low-confidence pronunciation instruction"
  /** The confidence assumed when the client sends none. */
  const DefaultConfidence: real := 1.0

  function PronunciationBlock(confidence: real): (r: string)
    ensures r != "" <==> confidence < PronunciationThreshold
  {
    if confidence < PronunciationThreshold then PronunciationInstruction else ""
  }

  /** Lower confidence never drops the block; the default confidence never adds it. */
  lemma PronunciationBlockMonotone(c1: real, c2: real)
    requires c1 <= c2
    ensures PronunciationBlock(c2) != "" ==> PronunciationBlock(c1) != ""
    ensures PronunciationBlock(DefaultConfidence) == ""
    ensures PronunciationBlock(0.85) != ""
  {
  }

  // ----- cleaning the raw reply -----

  const Fence := "```"
  const JsonFence := "```json"

  predicate FenceAt(s: string, i: int)
  {
    0 <= i && i + 3 <= |s| && s[i] == '`' && s[i + 1] == '`' && s[i + 2] == '`'
  }

  /** No three consecutive back-quotes anywhere. */
  predicate NoFence(s: string)
  {
    forall i :: 0 <= i < |s| ==> !FenceAt(s, i)
  }

  /** `text.replace('```json', '').replace('```', '').strip()`. */
  function CleanText(s: string): (r: string)
    ensures |r| <= |s|
    ensures r == [] || (!IsSpace(r[0]) && !IsSpace(r[|r| - 1]))
  {
    Strip(RemoveAll(RemoveAll(s, JsonFence), Fence))
  }

  lemma FencePrefix(t: string)
    ensures Fence <= t <==> FenceAt(t, 0)
  {
    if FenceAt(t, 0) {
      assert t[..3] == Fence;
    }
  }

  /** An input that does not start with two back-quotes does not produce an output that does. */
  lemma TwoQuotesKept(t: string)
    requires !(|t| >= 2 && t[0] == '`' && t[1] == '`')
    ensures var r := RemoveAll(t, Fence); !(|r| >= 2 && r[0] == '`' && r[1] == '`')
  {
    FencePrefix(t);
    if t != [] && t[0] == '`' {
      FencePrefix(t[1..]);
      assert RemoveAll(t, Fence) == [t[0]] + RemoveAll(t[1..], Fence);
      assert RemoveAll(t[1..], Fence) == [] || RemoveAll(t[1..], Fence)[0] == t[1];
    }
  }

  /** Dropping every fence leaves none behind, even where the pieces around a dropped one meet. */
  lemma {:induction false} RemoveFenceLeavesNone(s: string)
    ensures NoFence(RemoveAll(s, Fence))
    decreases |s|
  {
    if s != [] {
      if Fence <= s {
        RemoveFenceLeavesNone(s[3..]);
      } else {
        var rest := RemoveAll(s[1..], Fence);
        RemoveFenceLeavesNone(s[1..]);
        var r := [s[0]] + rest;
        assert r == RemoveAll(s, Fence);
        FencePrefix(s);
        if s[0] == '`' {
          TwoQuotesKept(s[1..]);
        }
        forall i | 0 <= i < |r|
          ensures !FenceAt(r, i)
        {
          if i > 0 {
            assert !FenceAt(rest, i - 1);
          }
        }
      }
    }
  }

  lemma NoFenceSlice(s: string, i: int, j: int)
    requires NoFence(s)
    requires 0 <= i <= j <= |s|
    ensures NoFence(s[i..j])
  {
    forall k | 0 <= k < j - i
      ensures !FenceAt(s[i..j], k)
    {
      assert !FenceAt(s, i + k);
    }
  }

  /** What reaches the JSON parser has no fence and no white space at either end. */
  lemma CleanTextSpec(s: string)
    ensures NoFence(CleanText(s))
    ensures var c := CleanText(s); c == [] || (!IsSpace(c[0]) && !IsSpace(c[|c| - 1]))
  {
    var t := RemoveAll(RemoveAll(s, JsonFence), Fence);
    RemoveFenceLeavesNone(RemoveAll(s, JsonFence));
    var i, j :| 0 <= i <= j <= |t| && Strip(t) == t[i..j];
    NoFenceSlice(t, i, j);
  }

  lemma NoFenceNoPattern(s: string, pat: string)
    requires NoFence(s)
    requires Fence <= pat
    ensures forall i :: 0 <= i <= |s| ==> !(pat <= s[i..])
  {
    forall i | 0 <= i <= |s|
      ensures !(pat <= s[i..])
    {
      if pat <= s[i..] {
        assert FenceAt(s, i);
      }
    }
  }

  lemma StripTrimmed(s: string)
    requires s == [] || (!IsSpace(s[0]) && !IsSpace(s[|s| - 1]))
    ensures Strip(s) == s
  {
  }

  /** Cleaning is idempotent: a reply that is already clean reaches the parser unchanged. */
  lemma CleanTextIdempotent(s: string)
    ensures CleanText(CleanText(s)) == CleanText(s)
  {
    var c := CleanText(s);
    CleanTextSpec(s);
    NoFenceNoPattern(c, JsonFence);
    RemoveAllAbsent(c, JsonFence);
    NoFenceNoPattern(c, Fence);
    RemoveAllAbsent(c, Fence);
    StripTrimmed(c);
  }

  /** A payload wrapped in a JSON code fence reaches the parser as the payload, stripped. */
  lemma UnwrapJsonFence(p: string)
    requires '`' !in p
    ensures CleanText(JsonFence + p + Fence) == Strip(p)
  {
    var s := JsonFence + p + Fence;
    assert JsonFence <= s;
    assert s[|JsonFence|..] == p + Fence;
    RemoveAllKeepsPlain(p, Fence, JsonFence);
    RemoveAllAbsent(Fence, JsonFence);
    assert RemoveAll(s, JsonFence) == p + Fence;
    RemoveAllKeepsPlain(p, Fence, Fence);
    assert Fence <= Fence && Fence[3..] == [];
    assert RemoveAll(p + Fence, Fence) == p + [] == p;
  }

  // ----- the model's reply and its fallbacks -----

  /** The fields of the model's reply that the turn reads. */
  datatype Reply = Reply(
    respuestaBot: string,
    idiomaRespuesta: string,
    hayError: bool,
    tipPronunciacion: Option<string>,
    textoCorregidoFonetico: Option<string>
  )

  /** What the network call produced: the raw reply text, or an exception. */
  datatype CallOutcome = Responded(text: string) | Raised

  const CutOffText := "Sorry, I got cut off. Could you say that again?"
  const ConnectionErrorText := "Connection error. Please try again."

  /** A canned reply: English, no error flagged, no pronunciation fields. */
  predicate IsFallback(r: Reply, text: string)
  {
    r == Reply(text, "en-US", false, None, None)
  }

  /**
   * The reply of one call: the parsed cleaned text; the "cut off" reply when
   * it does not parse; the "connection error" reply when the call raised.
   * `parse` stands for `json.loads`.
   */
  function Respond(outcome: CallOutcome, parse: string -> Option<Reply>): (r: Reply)
    ensures outcome.Raised? ==> IsFallback(r, ConnectionErrorText)
    ensures outcome.Responded? && parse(CleanText(outcome.text)).None? ==> IsFallback(r, CutOffText)
    ensures outcome.Responded? && parse(CleanText(outcome.text)).Some? ==> r == parse(CleanText(outcome.text)).value
  {
    match outcome
    case Raised => Reply(ConnectionErrorText, "en-US", false, None, None)
    case Responded(text) =>
      match parse(CleanText(text))
      case None => Reply(CutOffText, "en-US", false, None, None)
      case Some(reply) => reply
  }

  /** A fallback reply never carries a grammar error or a pronunciation tip, so nothing is logged for it. */
  lemma FallbackRecordsNothing(outcome: CallOutcome, parse: string -> Option<Reply>)
    requires outcome.Raised? || parse(CleanText(outcome.text)).None?
    ensures !Respond(outcome, parse).hayError
    ensures Respond(outcome, parse).tipPronunciacion.None?
    ensures Respond(outcome, parse).idiomaRespuesta == "en-US"
  {
  }
}
