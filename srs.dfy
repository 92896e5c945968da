/**
 * Spaced-repetition vocabulary scheduler: the user's vocabulary table, the
 * queue of words due for review, Leitner-style grading of a reviewed word,
 * and the insertion of newly extracted words.
 */
module Srs {
  import opened Wrappers
  import opened Text
  import opened Profile
  import opened Time

  /** Days until the next review after an "easy" grade, indexed by the NEW mastery level. */
  const EasyDays: seq<int> := [1, 3, 7, 14, 30, 60]
  /** Days until the next review after a "good" grade, indexed by the unchanged level. */
  const GoodDays: seq<int> := [1, 2, 4, 7, 15, 30]

  /** One row of the vocabulary table. Instants are seconds. */
  datatype VocabRow = VocabRow(
    palabra: string,
    traduccion: string,
    ejemplo: Option<string>,
    nivelDominio: int,
    proximoRepaso: int,
    ultimoRepaso: int,
    idiomaPalabra: string
  )

  predicate MasteryInRange(r: VocabRow)
  {
    0 <= r.nivelDominio <= 5
  }

  /** Python's `s[i]`, including negative indices; `None` stands for an `IndexError`. */
  function PyIndex(s: seq<int>, i: int): (r: Option<int>)
    ensures r.Some? <==> -|s| <= i < |s|
    ensures 0 <= i < |s| ==> r == Some(s[i])
    ensures -|s| <= i < 0 ==> r == Some(s[|s| + i])
  {
    if 0 <= i < |s| then Some(s[i])
    else if -|s| <= i < 0 then Some(s[|s| + i])
    else None
  }

  function Min(a: int, b: int): int { if a <= b then a else b }
  function Max(a: int, b: int): int { if a >= b then a else b }

  /** New mastery level and next review instant after one grade. */
  datatype Schedule = Schedule(nivel: int, proximo: int)

  /**
   * Grading a reviewed word of mastery `nivel` at instant `now`. "facil" raises
   * the level (at most 5) and waits EasyDays[new level] days; "bien" keeps the
   * level and waits GoodDays[level] days; any other grade lowers the level (at
   * least 0) and shows the word again one minute later. `None` is the
   * `IndexError` a level outside the tables raises.
   */
  function Grade(nivel: int, calificacion: string, now: int): (r: Option<Schedule>)
    ensures 0 <= nivel <= 5 ==> r.Some? && 0 <= r.value.nivel <= 5 && r.value.proximo > now
    ensures calificacion == "facil" && nivel >= -1 ==>
              r == Some(Schedule(Min(5, nivel + 1), now + EasyDays[Min(5, nivel + 1)] * DAY))
    ensures calificacion == "bien" && 0 <= nivel <= 5 ==>
              r == Some(Schedule(nivel, now + GoodDays[nivel] * DAY))
    ensures calificacion == "bien" && nivel > 5 ==> r == None
    ensures calificacion != "facil" && calificacion != "bien" ==>
              r == Some(Schedule(Max(0, nivel - 1), now + MINUTE))
    ensures r.Some? && calificacion != "facil" ==> r.value.nivel <= Max(0, nivel)
  {
    var (nuevo, diasExtra) :=
      if calificacion == "facil" then
        var n := Min(5, nivel + 1); (n, PyIndex(EasyDays, n))
      else if calificacion == "bien" then
        (nivel, PyIndex(GoodDays, nivel))
      else
        (Max(0, nivel - 1), Some(0));
    match diasExtra
    case None => None
    case Some(d) => Some(Schedule(nuevo, if d == 0 then now + MINUTE else now + d * DAY))
  }

  /** Repeated "facil" grades lengthen the interval strictly until the 60-day ceiling. */
  lemma EasyLengthensInterval(nivel: int, now: int)
    requires 0 <= nivel < 5
    ensures Grade(nivel + 1, "facil", now).value.proximo > Grade(nivel, "facil", now).value.proximo
              || Grade(nivel, "facil", now).value.nivel == 5
    ensures Grade(5, "facil", now).value.proximo == now + 60 * DAY
  {
  }

  /** Row `id` after a grade: only the mastery and the next review change. */
  function Regraded(row: VocabRow, s: Schedule): VocabRow
  {
    row.(nivelDominio := s.nivel, proximoRepaso := s.proximo)
  }

  /** Outcome of a grading request. */
  datatype ReviewStatus = Graded | NotFound | ServerError

  /** The table and the answer after grading row `id` (404 for an unknown row, 500 on `IndexError`). */
  function Reviewed(rows: seq<VocabRow>, id: int, calificacion: string, now: int): (r: (seq<VocabRow>, ReviewStatus))
    ensures r.1 == NotFound <==> !(0 <= id < |rows|)
    ensures r.1 == ServerError <==> 0 <= id < |rows| && Grade(rows[id].nivelDominio, calificacion, now).None?
    ensures r.1 != Graded ==> r.0 == rows
    ensures |r.0| == |rows|
  {
    if !(0 <= id < |rows|) then (rows, NotFound)
    else match Grade(rows[id].nivelDominio, calificacion, now)
      case None => (rows, ServerError)
      case Some(s) => (rows[id := Regraded(rows[id], s)], Graded)
  }

  /**
   * Grading changes the mastery and next review of row `id` only; the last
   * review instant and every other row are left as they were, and mastery in
   * [0,5] stays in [0,5] with the next review strictly in the future.
   */
  lemma {:induction false} ReviewFrame(rows: seq<VocabRow>, id: int, calificacion: string, now: int)
    requires 0 <= id < |rows| && MasteryInRange(rows[id])
    ensures var (rows', st) := Reviewed(rows, id, calificacion, now);
      && st == Graded
      && |rows'| == |rows|
      && (forall j :: 0 <= j < |rows| && j != id ==> rows'[j] == rows[j])
      && rows'[id].palabra == rows[id].palabra && rows'[id].traduccion == rows[id].traduccion
      && rows'[id].ejemplo == rows[id].ejemplo && rows'[id].idiomaPalabra == rows[id].idiomaPalabra
      && rows'[id].ultimoRepaso == rows[id].ultimoRepaso
      && MasteryInRange(rows'[id]) && rows'[id].proximoRepaso > now
      && rows'[id].nivelDominio == Grade(rows[id].nivelDominio, calificacion, now).value.nivel
      && rows'[id].proximoRepaso == Grade(rows[id].nivelDominio, calificacion, now).value.proximo
  {
    var s := Grade(rows[id].nivelDominio, calificacion, now);
    assert s.Some?;
  }

  // ----- the due queue -----

  /** The rows due at `now`, in table order. */
  function Due(rows: seq<VocabRow>, now: int): (r: seq<VocabRow>)
    ensures forall x :: x in r <==> x in rows && x.proximoRepaso <= now
    ensures forall x :: multiset(r)[x] == if x.proximoRepaso <= now then multiset(rows)[x] else 0
    ensures multiset(r) <= multiset(rows)
  {
    if rows == [] then []
    else
      assert rows == [rows[0]] + rows[1..];
      (if rows[0].proximoRepaso <= now then [rows[0]] else []) + Due(rows[1..], now)
  }

  /** Each row is scheduled no later than the next one. */
  ghost predicate SortedByNextReview(s: seq<VocabRow>)
  {
    forall i :: 0 <= i < |s| - 1 ==> s[i].proximoRepaso <= s[i + 1].proximoRepaso
  }

  /** Sortedness of neighbours orders every pair. */
  lemma {:induction false} SortedAllPairs(s: seq<VocabRow>, i: int, j: int)
    requires SortedByNextReview(s) && 0 <= i <= j < |s|
    ensures s[i].proximoRepaso <= s[j].proximoRepaso
    decreases j - i
  {
    if i < j {
      SortedAllPairs(s, i + 1, j);
    }
  }

  function InsertByNextReview(x: VocabRow, s: seq<VocabRow>): (r: seq<VocabRow>)
    requires SortedByNextReview(s)
    ensures SortedByNextReview(r)
    ensures multiset(r) == multiset(s) + multiset{x}
    ensures r[0] == x || (s != [] && r[0] == s[0])
  {
    if s == [] then [x]
    else if x.proximoRepaso <= s[0].proximoRepaso then [x] + s
    else
      assert s == [s[0]] + s[1..];
      var t := InsertByNextReview(x, s[1..]);
      assert |s| > 1 ==> s[1..][0] == s[1];
      [s[0]] + t
  }

  function SortByNextReview(s: seq<VocabRow>): (r: seq<VocabRow>)
    ensures SortedByNextReview(r)
    ensures multiset(r) == multiset(s)
  {
    if s == [] then []
    else
      assert s == [s[0]] + s[1..];
      InsertByNextReview(s[0], SortByNextReview(s[1..]))
  }

  /** The flash-card queue: the due rows, oldest scheduled review first. */
  function DueQueue(rows: seq<VocabRow>, now: int): (q: seq<VocabRow>)
    ensures SortedByNextReview(q)
    ensures multiset(q) == multiset(Due(rows, now))
  {
    SortByNextReview(Due(rows, now))
  }

  /** The queue holds exactly the rows due at `now` (as a multiset), ascending by next review. */
  lemma DueQueueSpec(rows: seq<VocabRow>, now: int)
    ensures forall i, j :: 0 <= i <= j < |DueQueue(rows, now)| ==>
              DueQueue(rows, now)[i].proximoRepaso <= DueQueue(rows, now)[j].proximoRepaso
    ensures multiset(DueQueue(rows, now)) == multiset(Due(rows, now))
    ensures forall x :: multiset(DueQueue(rows, now))[x] == if x.proximoRepaso <= now then multiset(rows)[x] else 0
    ensures forall x :: x in DueQueue(rows, now) <==> x in rows && x.proximoRepaso <= now
  {
    var q := DueQueue(rows, now);
    forall i, j | 0 <= i <= j < |q| ensures q[i].proximoRepaso <= q[j].proximoRepaso {
      SortedAllPairs(q, i, j);
    }
    forall x ensures x in q <==> x in Due(rows, now) {
      assert x in q <==> x in multiset(q);
    }
  }

  /** The head of a non-empty queue is a due row scheduled no later than any other due row. */
  lemma QueueHeadIsEarliest(rows: seq<VocabRow>, now: int)
    ensures DueQueue(rows, now) == [] <==> forall x :: x in rows ==> x.proximoRepaso > now
    ensures DueQueue(rows, now) != [] ==>
              var x := DueQueue(rows, now)[0];
              x in rows && x.proximoRepaso <= now
              && forall y :: y in rows && y.proximoRepaso <= now ==> x.proximoRepaso <= y.proximoRepaso
  {
    var q := DueQueue(rows, now);
    DueQueueSpec(rows, now);
    if q != [] {
      forall y | y in rows && y.proximoRepaso <= now ensures q[0].proximoRepaso <= y.proximoRepaso {
        var k :| 0 <= k < |q| && q[k] == y;
      }
    }
  }

  /**
   * The language the review page pronounces words in: that of the first word
   * in the queue, or the language part of the user's target voice when that
   * word has none, or "en-US" when nothing is due or no settings exist.
   */
  function ReviewLanguage(rows: seq<VocabRow>, now: int, config: Option<ConfigVoz>): (lang: string)
    ensures DueQueue(rows, now) == [] ==> lang == "en-US"
    ensures DueQueue(rows, now) != [] && DueQueue(rows, now)[0].idiomaPalabra != [] ==>
              lang == DueQueue(rows, now)[0].idiomaPalabra
    ensures DueQueue(rows, now) != [] && DueQueue(rows, now)[0].idiomaPalabra == [] ==>
              (config.None? ==> lang == "en-US") && (config.Some? ==> lang == FirstTwoSubtags(config.value.voiceCodeTts))
  {
    var q := DueQueue(rows, now);
    if q == [] then "en-US"
    else if q[0].idiomaPalabra != [] then q[0].idiomaPalabra
    else if config.Some? then FirstTwoSubtags(config.value.voiceCodeTts)
    else "en-US"
  }

  // ----- inserting extracted words -----

  /** A vocabulary entry extracted from a reply; a missing field is the empty string. */
  datatype NewWord = NewWord(palabra: string, traduccion: string, ejemplo: Option<string>)

  /** Case-insensitive (`iexact`) lookup of a word. */
  predicate HasWord(rows: seq<VocabRow>, palabra: string)
  {
    exists i :: 0 <= i < |rows| && Lower(rows[i].palabra) == Lower(palabra)
  }

  /** The row a new word starts as: mastery 0, due immediately, tagged with the column default "en-US". */
  function NewRow(w: NewWord, now: int): (r: VocabRow)
    ensures r.nivelDominio == 0 && r.proximoRepaso == now && r.ultimoRepaso == now
  {
    VocabRow(w.palabra, w.traduccion, w.ejemplo, 0, now, now, "en-US")
  }

  predicate Insertable(rows: seq<VocabRow>, w: NewWord)
  {
    w.palabra != [] && w.traduccion != [] && !HasWord(rows, w.palabra)
  }

  function AddWord(rows: seq<VocabRow>, w: NewWord, now: int): seq<VocabRow>
  {
    if Insertable(rows, w) then rows + [NewRow(w, now)] else rows
  }

  /** The table after inserting a turn's words one after another. */
  function AddWords(rows: seq<VocabRow>, ws: seq<NewWord>, now: int): (r: seq<VocabRow>)
    ensures rows <= r && |r| <= |rows| + |ws|
    decreases |ws|
  {
    if ws == [] then rows else AddWords(AddWord(rows, ws[0], now), ws[1..], now)
  }

  ghost predicate NoDuplicateWords(rows: seq<VocabRow>)
  {
    forall i, j :: 0 <= i < j < |rows| ==> Lower(rows[i].palabra) != Lower(rows[j].palabra)
  }

  /** Row `x` is the new row of one of the complete (word and translation given) entries of `ws`. */
  predicate AddedFrom(ws: seq<NewWord>, now: int, x: VocabRow)
  {
    exists w :: w in ws && w.palabra != [] && w.traduccion != [] && x == NewRow(w, now)
  }

  /**
   * Inserting words keeps every existing row, adds only the new rows of
   * complete extracted entries (at mastery 0 and due at `now`), keeps the
   * table free of case-insensitive duplicates, and keeps every mastery in [0,5].
   */
  lemma {:induction false} AddWordsSpec(rows: seq<VocabRow>, ws: seq<NewWord>, now: int)
    ensures rows <= AddWords(rows, ws, now)
    ensures forall k :: |rows| <= k < |AddWords(rows, ws, now)| ==>
              AddWords(rows, ws, now)[k].nivelDominio == 0 && AddWords(rows, ws, now)[k].proximoRepaso == now
    ensures forall k :: |rows| <= k < |AddWords(rows, ws, now)| ==>
              AddedFrom(ws, now, AddWords(rows, ws, now)[k])
    ensures NoDuplicateWords(rows) ==> NoDuplicateWords(AddWords(rows, ws, now))
    ensures (forall i :: 0 <= i < |rows| ==> MasteryInRange(rows[i])) ==>
              forall i :: 0 <= i < |AddWords(rows, ws, now)| ==> MasteryInRange(AddWords(rows, ws, now)[i])
    decreases |ws|
  {
    if ws != [] {
      var next := AddWord(rows, ws[0], now);
      if Insertable(rows, ws[0]) && NoDuplicateWords(rows) {
        forall i | 0 <= i < |rows| ensures Lower(next[i].palabra) != Lower(ws[0].palabra) {
          assert next[i] == rows[i];
        }
      }
      AddWordsSpec(next, ws[1..], now);
      var r := AddWords(rows, ws, now);
      forall k | |rows| <= k < |r| ensures AddedFrom(ws, now, r[k]) {
        if k < |next| {
          assert next == rows + [NewRow(ws[0], now)] && r[k] == next[k];
          assert ws[0] in ws;
        } else {
          assert r == AddWords(next, ws[1..], now) && AddedFrom(ws[1..], now, r[k]);
          var w :| w in ws[1..] && w.palabra != [] && w.traduccion != [] && r[k] == NewRow(w, now);
          assert w in ws;
        }
      }
    }
  }

  /** Once a word has a case-insensitive match in the table, later insertions keep it. */
  lemma {:induction false} HasWordKept(rows: seq<VocabRow>, ws: seq<NewWord>, now: int, p: string)
    requires HasWord(rows, p)
    ensures HasWord(AddWords(rows, ws, now), p)
    decreases |ws|
  {
    if ws != [] {
      var next := AddWord(rows, ws[0], now);
      var i :| 0 <= i < |rows| && Lower(rows[i].palabra) == Lower(p);
      assert next[i] == rows[i];
      HasWordKept(next, ws[1..], now, p);
    }
  }

  /** Every extracted word with a non-empty word and translation ends up in the table. */
  lemma {:induction false} AddWordsCovers(rows: seq<VocabRow>, ws: seq<NewWord>, now: int, k: int)
    requires 0 <= k < |ws| && ws[k].palabra != [] && ws[k].traduccion != []
    ensures HasWord(AddWords(rows, ws, now), ws[k].palabra)
    decreases |ws|
  {
    var next := AddWord(rows, ws[0], now);
    if k == 0 {
      if !HasWord(rows, ws[0].palabra) {
        assert next[|rows|] == NewRow(ws[0], now);
      }
      assert HasWord(next, ws[0].palabra);
      HasWordKept(next, ws[1..], now, ws[0].palabra);
    } else {
      AddWordsCovers(next, ws[1..], now, k - 1);
    }
  }

  /** A word inserted at `now` is in the review queue at `now` and at every later instant. */
  lemma NewWordIsDue(rows: seq<VocabRow>, w: NewWord, now: int, later: int)
    requires Insertable(rows, w) && now <= later
    ensures NewRow(w, now) in DueQueue(AddWord(rows, w, now), later)
  {
    DueQueueSpec(AddWord(rows, w, now), later);
    assert AddWord(rows, w, now)[|rows|] == NewRow(w, now);
  }

  /** The user's vocabulary table, updated in place by grading and by insertion. */
  class VocabTable {
    var rows: seq<VocabRow>

    ghost predicate Valid()
      reads this
    {
      forall i :: 0 <= i < |rows| ==> MasteryInRange(rows[i])
    }

    constructor ()
      ensures rows == [] && Valid()
    {
      rows := [];
    }

    /** Grade row `id` at instant `now` (the POST branch of the review page). */
    method Review(id: int, calificacion: string, now: int) returns (status: ReviewStatus)
      modifies this
      ensures (rows, status) == Reviewed(old(rows), id, calificacion, now)
      ensures old(Valid()) ==> Valid() && (0 <= id < |rows| ==> status == Graded)
    {
      if !(0 <= id < |rows|) {
        return NotFound;
      }
      var vocab := rows[id];
      var nivel := vocab.nivelDominio;
      var diasExtra: Option<int> := Some(0);
      if calificacion == "facil" {
        nivel := Min(5, nivel + 1);
        diasExtra := PyIndex(EasyDays, nivel);
      } else if calificacion == "bien" {
        diasExtra := PyIndex(GoodDays, nivel);
      } else {
        nivel := Max(0, nivel - 1);
        diasExtra := Some(0);
      }
      if diasExtra.None? {
        return ServerError;
      }
      var nuevaFecha := if diasExtra.value == 0 then now + MINUTE else now + diasExtra.value * DAY;
      rows := rows[id := vocab.(nivelDominio := nivel, proximoRepaso := nuevaFecha)];
      status := Graded;
      if old(Valid()) {
        forall j | 0 <= j < |rows| ensures MasteryInRange(rows[j]) {
          if j != id { assert rows[j] == old(rows)[j]; }
        }
      }
    }

    /** Insert the words extracted from one reply, skipping incomplete and already known ones. */
    method LearnWords(nuevas: seq<NewWord>, now: int)
      modifies this
      ensures rows == AddWords(old(rows), nuevas, now)
      ensures old(Valid()) ==> Valid()
    {
      var i := 0;
      while i < |nuevas|
        invariant 0 <= i <= |nuevas|
        invariant AddWords(rows, nuevas[i..], now) == AddWords(old(rows), nuevas, now)
      {
        var item := nuevas[i];
        if item.palabra != [] && item.traduccion != [] {
          var existe := HasWord(rows, item.palabra);
          if !existe {
            rows := rows + [NewRow(item, now)];
          }
        }
        assert nuevas[i..][1..] == nuevas[i + 1..];
        i := i + 1;
      }
      AddWordsSpec(old(rows), nuevas, now);
    }
  }
}
