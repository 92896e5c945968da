/**
 * Quiz attempts: which completed attempt is the last and which the best, the
 * retry cooldown, the questions' option lists and answer letters, and the
 * submission of an attempt. Instants are seconds.
 */
module Quizzes {
  import opened Wrappers
  import opened Profile
  import Progress
  import opened Time

  /** Cooldown days when the user has no voice settings. */
  const DefaultCooldownDays := 3

  /** A score as the pair (correct answers, questions); the percentage is derived. */
  datatype Puntaje = Puntaje(correctas: nat, total: nat)

  /** The percentage a score stands for, without the rounding to one decimal; 0 for an empty quiz. */
  function Porcentaje(p: Puntaje): (r: real)
    ensures p.total == 0 ==> r == 0.0
    ensures p.correctas <= p.total ==> 0.0 <= r <= 100.0
    ensures p.total > 0 && p.correctas == p.total ==> r == 100.0
    ensures p.correctas <= p.total && r == 100.0 ==> p.total > 0 && p.correctas == p.total
  {
    if p.total == 0 then 0.0
    else
      var c, t := p.correctas as real, p.total as real;
      assert p.correctas <= p.total ==> c * 100.0 <= t * 100.0;
      c * 100.0 / t
  }

  /** An `IntentoQuiz` row of one quiz. */
  datatype Intento = Intento(puntaje: Puntaje, fecha: int, completado: bool)

  /** The completed attempt with the latest date (`ultimo_intento`), if any. */
  function LastCompleted(intentos: seq<Intento>): (r: Option<Intento>)
    ensures r.None? <==> forall i :: 0 <= i < |intentos| ==> !intentos[i].completado
    ensures r.Some? ==> r.value in intentos && r.value.completado
    ensures r.Some? ==> forall i :: 0 <= i < |intentos| && intentos[i].completado ==> intentos[i].fecha <= r.value.fecha
  {
    if intentos == [] then None
    else
      var n := |intentos| - 1;
      var rest := LastCompleted(intentos[..n]);
      assert forall i :: 0 <= i < n ==> intentos[..n][i] == intentos[i];
      if intentos[n].completado && (rest.None? || rest.value.fecha <= intentos[n].fecha) then Some(intentos[n])
      else rest
  }

  /** The score of a completed attempt with the highest percentage (`mejor_puntaje`), if any. */
  function BestScore(intentos: seq<Intento>): (r: Option<Puntaje>)
    ensures r.None? <==> forall i :: 0 <= i < |intentos| ==> !intentos[i].completado
    ensures r.Some? ==> exists i :: 0 <= i < |intentos| && intentos[i].completado && intentos[i].puntaje == r.value
    ensures r.Some? ==> forall i :: 0 <= i < |intentos| && intentos[i].completado ==>
                          Porcentaje(intentos[i].puntaje) <= Porcentaje(r.value)
  {
    if intentos == [] then None
    else
      var n := |intentos| - 1;
      var rest := BestScore(intentos[..n]);
      assert forall i :: 0 <= i < n ==> intentos[..n][i] == intentos[i];
      if intentos[n].completado && (rest.None? || Porcentaje(rest.value) <= Porcentaje(intentos[n].puntaje))
      then Some(intentos[n].puntaje)
      else rest
  }

  /** `get_dias_cooldown`: the user's setting, or 3 without settings. */
  function CooldownDays(config: Option<ConfigVoz>): (d: int)
    ensures config.None? ==> d == DefaultCooldownDays
    ensures config.Some? ==> d == config.value.diasCooldown
  {
    if config.Some? then config.value.diasCooldown else DefaultCooldownDays
  }

  /** A freshly created settings row waits as long as no settings at all. */
  lemma DefaultSettingsCooldown()
    ensures CooldownDays(Some(Defaults())) == CooldownDays(None) == DefaultCooldownDays
  {
  }

  /** `puede_reintentar`: no completed attempt, or its unlock instant has been reached. */
  function CanRetry(intentos: seq<Intento>, config: Option<ConfigVoz>, now: int): (ok: bool)
    ensures ok <==> forall i :: 0 <= i < |intentos| && intentos[i].completado ==>
                      now >= intentos[i].fecha + CooldownDays(config) * DAY
  {
    var last := LastCompleted(intentos);
    last.None? || now >= last.value.fecha + CooldownDays(config) * DAY
  }

  /** `dias_para_reintentar`: 0 when a retry is allowed, otherwise whole days of the wait plus one. */
  function DaysToRetry(intentos: seq<Intento>, config: Option<ConfigVoz>, now: int): (d: int)
    ensures d >= 0
    ensures LastCompleted(intentos).None? ==> d == 0
    ensures LastCompleted(intentos).Some? && now < LastCompleted(intentos).value.fecha + CooldownDays(config) * DAY ==>
              var wait := LastCompleted(intentos).value.fecha + CooldownDays(config) * DAY - now;
              (d - 1) * DAY <= wait < d * DAY
  {
    var last := LastCompleted(intentos);
    if last.None? then 0
    else
      var unlock := last.value.fecha + CooldownDays(config) * DAY;
      if now >= unlock then 0
      else
        var days := (unlock - now) / DAY;   // `timedelta.days` of a positive delta
        if days + 1 > 0 then days + 1 else 0
  }

  /** The remaining days are 0 exactly when a retry is allowed. */
  lemma DaysZeroIffCanRetry(intentos: seq<Intento>, config: Option<ConfigVoz>, now: int)
    ensures DaysToRetry(intentos, config, now) == 0 <==> CanRetry(intentos, config, now)
    ensures DaysToRetry(intentos, config, now) >= 0
  {
  }

  /**
   * While locked, after the attempt's own instant, between 1 and the cooldown
   * days remain; at the very instant of the attempt it reports one more day
   * than the cooldown.
   */
  lemma LockedDaysBounds(intentos: seq<Intento>, config: Option<ConfigVoz>, now: int)
    requires !CanRetry(intentos, config, now)
    ensures LastCompleted(intentos).Some?
    ensures now > LastCompleted(intentos).value.fecha ==>
              1 <= DaysToRetry(intentos, config, now) <= CooldownDays(config)
    ensures now == LastCompleted(intentos).value.fecha ==>
              DaysToRetry(intentos, config, now) == CooldownDays(config) + 1
  {
    var last := LastCompleted(intentos).value;
    var unlock := last.fecha + CooldownDays(config) * DAY;
    assert 0 < unlock - now;
    if now > last.fecha {
      assert unlock - now <= CooldownDays(config) * DAY - 1;
      DivBelow(unlock - now, CooldownDays(config));
    } else if now == last.fecha {
      assert (unlock - now) / DAY == CooldownDays(config);
    }
  }

  lemma DivBelow(x: int, d: int)
    requires 0 < x <= d * DAY - 1
    ensures x / DAY <= d - 1
  {
  }

  /** Time only ever opens the lock: the remaining days never grow as `now` advances. */
  lemma DaysNonIncreasing(intentos: seq<Intento>, config: Option<ConfigVoz>, now1: int, now2: int)
    requires now1 <= now2
    ensures DaysToRetry(intentos, config, now2) <= DaysToRetry(intentos, config, now1)
    ensures CanRetry(intentos, config, now1) ==> CanRetry(intentos, config, now2)
  {
    var last := LastCompleted(intentos);
    if last.Some? {
      var unlock := last.value.fecha + CooldownDays(config) * DAY;
      if now2 < unlock {
        DivMonotone(unlock - now2, unlock - now1);
      }
    }
  }

  lemma DivMonotone(a: int, b: int)
    requires 0 <= a <= b
    ensures a / DAY <= b / DAY
  {
  }

  /** Incomplete attempts never count: adding one changes neither cooldown, last attempt nor best score. */
  lemma IncompleteAttemptIgnored(intentos: seq<Intento>, a: Intento, config: Option<ConfigVoz>, now: int)
    requires !a.completado
    ensures LastCompleted(intentos + [a]) == LastCompleted(intentos)
    ensures BestScore(intentos + [a]) == BestScore(intentos)
    ensures CanRetry(intentos + [a], config, now) == CanRetry(intentos, config, now)
    ensures DaysToRetry(intentos + [a], config, now) == DaysToRetry(intentos, config, now)
  {
    assert (intentos + [a])[..|intentos|] == intentos;
  }

  // ----- questions -----

  /** A `QuizPregunta` row: four options and the index (0 = A … 3 = D) of the right one. */
  datatype Pregunta = Pregunta(
    numero: int,
    pregunta: string,
    opcionA: string, opcionB: string, opcionC: string, opcionD: string,
    respuestaCorrecta: int,
    explicacion: string,
    categoria: string
  )

  /** `get_opciones`: the options in the order a, b, c, d. */
  function Options(p: Pregunta): (r: seq<string>)
    ensures |r| == 4
  {
    [p.opcionA, p.opcionB, p.opcionC, p.opcionD]
  }

  /** Python's `['A', 'B', 'C', 'D'][i]`; `None` is the `IndexError`. */
  function Letter(i: int): (r: Option<char>)
    ensures r.Some? <==> -4 <= i < 4
    ensures r.Some? ==> 'A' <= r.value <= 'D'
  {
    if 0 <= i < 4 then Some("ABCD"[i])
    else if -4 <= i < 0 then Some("ABCD"[4 + i])
    else None
  }

  /** A negative index counts from the end, as Python's list indexing does. */
  lemma LetterNegative(i: int)
    requires -4 <= i < 0
    ensures Letter(i) == Letter(i + 4)
  {
  }

  /** `letra_correcta`. */
  function CorrectLetter(p: Pregunta): (r: Option<char>)
    ensures r.Some? <==> -4 <= p.respuestaCorrecta < 4
    ensures 0 <= p.respuestaCorrecta < 4 ==> IndexOfLetter(r.value) == Some(p.respuestaCorrecta)
  {
    Letter(p.respuestaCorrecta)
  }

  /** The answer index a letter stands for. */
  function IndexOfLetter(c: char): Option<int>
  {
    if 'A' <= c <= 'D' then Some(c as int - 'A' as int) else None
  }

  /** Letters and answer indices 0..3 correspond one to one. */
  lemma LetterRoundTrip(i: int, c: char)
    ensures 0 <= i < 4 ==> Letter(i).Some? && IndexOfLetter(Letter(i).value) == Some(i)
    ensures IndexOfLetter(c).Some? ==> Letter(IndexOfLetter(c).value) == Some(c)
  {
  }

  /**
   * A question as the quiz generator stores it from the model's option list:
   * missing options become '', options past the fourth are dropped.
   */
  function FromGenerated(numero: int, texto: string, opciones: seq<string>, correcta: int,
                         explicacion: string, categoria: string): (p: Pregunta)
    ensures p.numero == numero && p.pregunta == texto && p.respuestaCorrecta == correcta
    ensures p.explicacion == explicacion && p.categoria == categoria
  {
    Pregunta(numero, texto,
      if |opciones| > 0 then opciones[0] else "",
      if |opciones| > 1 then opciones[1] else "",
      if |opciones| > 2 then opciones[2] else "",
      if |opciones| > 3 then opciones[3] else "",
      correcta, explicacion, categoria)
  }

  /** Reading the options back returns the first four generated ones, padded with ''. */
  lemma OptionsRoundTrip(numero: int, texto: string, opciones: seq<string>, correcta: int,
                         explicacion: string, categoria: string)
    ensures var r := Options(FromGenerated(numero, texto, opciones, correcta, explicacion, categoria));
      forall i :: 0 <= i < 4 ==> r[i] == (if i < |opciones| then opciones[i] else "")
    ensures |opciones| == 4 ==> Options(FromGenerated(numero, texto, opciones, correcta, explicacion, categoria)) == opciones
  {
  }

  // ----- submission -----

  /** A `RespuestaIntento` row: attempt, question position, chosen index, correctness. */
  datatype Respuesta = Respuesta(intento: nat, pregunta: nat, respuestaUsuario: int, esCorrecta: bool)

  /** The responses recorded for the answered questions of `ps`, in question order. */
  function Responses(id: nat, ps: seq<Pregunta>, envio: map<int, int>): (r: seq<Respuesta>)
    ensures |r| <= |ps|
  {
    if ps == [] then []
    else
      var n := |ps| - 1;
      Responses(id, ps[..n], envio) + ResponseFor(id, ps, envio, n)
  }

  /** How many questions of `ps` were answered with their correct index. */
  function Correct(ps: seq<Pregunta>, envio: map<int, int>): (c: nat)
    ensures c <= |ps|
  {
    if ps == [] then 0
    else
      var n := |ps| - 1;
      Correct(ps[..n], envio) +
        (if ps[n].numero in envio && envio[ps[n].numero] == ps[n].respuestaCorrecta then 1 else 0)
  }

  /** How many questions of `ps` were answered at all. */
  function Answered(ps: seq<Pregunta>, envio: map<int, int>): (c: nat)
    ensures c <= |ps|
  {
    if ps == [] then 0
    else
      var n := |ps| - 1;
      Answered(ps[..n], envio) + (if ps[n].numero in envio then 1 else 0)
  }

  /** How many of the recorded responses are marked correct (the result page's tally). */
  function CountCorrect(rs: seq<Respuesta>): nat
  {
    if rs == [] then 0 else CountCorrect(rs[..|rs| - 1]) + (if rs[|rs| - 1].esCorrecta then 1 else 0)
  }

  lemma {:induction false} CountCorrectAppend(a: seq<Respuesta>, b: seq<Respuesta>)
    ensures CountCorrect(a + b) == CountCorrect(a) + CountCorrect(b)
    decreases |b|
  {
    if b == [] {
      assert a + b == a;
    } else {
      assert (a + b)[..|a + b| - 1] == a + b[..|b| - 1];
      assert (a + b)[|a + b| - 1] == b[|b| - 1];
      CountCorrectAppend(a, b[..|b| - 1]);
    }
  }

  /** The last step of `Responses`: the responses of the earlier questions, then this one's if answered. */
  function ResponseFor(id: nat, ps: seq<Pregunta>, envio: map<int, int>, n: nat): (r: seq<Respuesta>)
    requires n < |ps|
    ensures |r| <= 1 && (r != [] <==> ps[n].numero in envio)
    ensures r != [] ==> r[0].intento == id && r[0].pregunta == n
  {
    if ps[n].numero in envio
    then [Respuesta(id, n, envio[ps[n].numero], envio[ps[n].numero] == ps[n].respuestaCorrecta)]
    else []
  }

  /**
   * The correct tally is at most the answered count, which is at most the
   * question count, and it equals the number of responses marked correct.
   */
  lemma {:induction false} ResponsesCount(id: nat, ps: seq<Pregunta>, envio: map<int, int>)
    ensures Correct(ps, envio) <= |Responses(id, ps, envio)| <= |ps|
    ensures |Responses(id, ps, envio)| == Answered(ps, envio)
    ensures CountCorrect(Responses(id, ps, envio)) == Correct(ps, envio)
  {
    if ps != [] {
      var n := |ps| - 1;
      ResponsesCount(id, ps[..n], envio);
      CountCorrectAppend(Responses(id, ps[..n], envio), ResponseFor(id, ps, envio, n));
    }
  }

  /** Each response names one of the first `m` questions, in strictly increasing question order. */
  predicate InQuestionOrder(rs: seq<Respuesta>, m: nat)
  {
    && (forall k :: 0 <= k < |rs| ==> rs[k].pregunta < m)
    && (forall k1, k2 :: 0 <= k1 < k2 < |rs| ==> rs[k1].pregunta < rs[k2].pregunta)
  }

  /**
   * Responses follow the question order strictly, so no question gets two of
   * them and each names a question of `ps`.
   */
  lemma {:induction false} ResponsesOrdered(id: nat, ps: seq<Pregunta>, envio: map<int, int>)
    ensures InQuestionOrder(Responses(id, ps, envio), |ps|)
  {
    if ps != [] {
      var n := |ps| - 1;
      ResponsesOrdered(id, ps[..n], envio);
      var a := Responses(id, ps[..n], envio);
      assert InQuestionOrder(a, n);
      var b := ResponseFor(id, ps, envio, n);
      var r := a + b;
      assert Responses(id, ps, envio) == r;
      forall k | 0 <= k < |r| ensures r[k].pregunta < |ps| {
        if k >= |a| { assert r[k] == b[0]; }
      }
      forall k1, k2 | 0 <= k1 < k2 < |r| ensures r[k1].pregunta < r[k2].pregunta {
        assert r[k1] == a[k1] && a[k1].pregunta < n;
        if k2 >= |a| {
          assert r[k2] == b[0] && r[k2].pregunta == n;
        } else {
          assert r[k2] == a[k2];
        }
      }
    }
  }

  /** A response of attempt `id` records an answered question of `ps`, its chosen index and whether it is right. */
  predicate RecordsAnswer(id: nat, ps: seq<Pregunta>, envio: map<int, int>, r: Respuesta)
  {
    && r.intento == id && r.pregunta < |ps|
    && ps[r.pregunta].numero in envio
    && r.respuestaUsuario == envio[ps[r.pregunta].numero]
    && (r.esCorrecta <==> r.respuestaUsuario == ps[r.pregunta].respuestaCorrecta)
  }

  /** Every recorded response is a faithful record of an answered question. */
  lemma {:induction false} ResponsesEntries(id: nat, ps: seq<Pregunta>, envio: map<int, int>)
    ensures forall r :: r in Responses(id, ps, envio) ==> RecordsAnswer(id, ps, envio, r)
  {
    if ps != [] {
      var n := |ps| - 1;
      ResponsesEntries(id, ps[..n], envio);
      forall r | r in Responses(id, ps[..n], envio)
        ensures RecordsAnswer(id, ps, envio, r)
      {
        assert RecordsAnswer(id, ps[..n], envio, r);
        assert ps[..n][r.pregunta] == ps[r.pregunta];
      }
    }
  }

  /** Some response in `rs` is for question `j`. */
  predicate HasResponseTo(rs: seq<Respuesta>, j: int)
  {
    exists k :: 0 <= k < |rs| && rs[k].pregunta == j
  }

  /** A question has a response exactly when it was answered. */
  lemma {:induction false} ResponsesCover(id: nat, ps: seq<Pregunta>, envio: map<int, int>, j: int)
    requires 0 <= j < |ps|
    ensures ps[j].numero in envio <==> HasResponseTo(Responses(id, ps, envio), j)
  {
    var n := |ps| - 1;
    var prev := Responses(id, ps[..n], envio);
    var tail := ResponseFor(id, ps, envio, n);
    var rs := prev + tail;
    assert rs == Responses(id, ps, envio);
    var inTail := tail != [] && tail[0].pregunta == j;
    assert HasResponseTo(rs, j) <==> HasResponseTo(prev, j) || inTail by {
      if HasResponseTo(rs, j) {
        var k :| 0 <= k < |rs| && rs[k].pregunta == j;
        if k < |prev| { assert prev[k] == rs[k]; } else { assert rs[k] == tail[0]; }
      }
      if HasResponseTo(prev, j) {
        var k :| 0 <= k < |prev| && prev[k].pregunta == j;
        assert rs[k] == prev[k];
      }
      if inTail { assert rs[|prev|] == tail[0]; }
    }
    if j < n {
      assert ps[..n][j] == ps[j];
      ResponsesCover(id, ps[..n], envio, j);
    } else {
      ResponsesOrdered(id, ps[..n], envio);
      assert forall k :: 0 <= k < |prev| ==> prev[k].pregunta < n;
    }
  }

  /** What a submission answers: a 403 with the remaining days, or the finished attempt and its rewards. */
  datatype SubmitResult =
    | Rejected(diasRestantes: int)
    | Accepted(intento: nat, xp: int, subioNivel: bool, nivelNuevo: int)

  /** The attempts and responses of one quiz. */
  class QuizHistory {
    var intentos: seq<Intento>
    var respuestas: seq<Respuesta>

    constructor ()
      ensures intentos == [] && respuestas == []
    {
      intentos, respuestas := [], [];
    }

    /**
     * The grading loop of a submission: one response of attempt `id` is
     * recorded per answered question, in question order, and the correct
     * answers are tallied.
     */
    method RecordResponses(id: nat, preguntas: seq<Pregunta>, envio: map<int, int>) returns (correctas: nat)
      modifies this
      ensures correctas == Correct(preguntas, envio)
      ensures respuestas == old(respuestas) + Responses(id, preguntas, envio)
      ensures intentos == old(intentos)
    {
      correctas := 0;
      var k := 0;
      while k < |preguntas|
        invariant 0 <= k <= |preguntas|
        invariant correctas == Correct(preguntas[..k], envio)
        invariant respuestas == old(respuestas) + Responses(id, preguntas[..k], envio)
        invariant intentos == old(intentos)
      {
        var pregunta := preguntas[k];
        if pregunta.numero in envio {
          var respuesta := envio[pregunta.numero];
          var esCorrecta := respuesta == pregunta.respuestaCorrecta;
          if esCorrecta {
            correctas := correctas + 1;
          }
          respuestas := respuestas + [Respuesta(id, k, respuesta, esCorrecta)];
        }
        assert preguntas[..k + 1][..k] == preguntas[..k];
        k := k + 1;
      }
      assert preguntas[..|preguntas|] == preguntas;
    }

    /**
     * Submitting answers `envio` (question number to chosen index) at instant
     * instant `now`; the progress record is dated with the day of `now` (the
     * view stores `timezone.now()` in a date column). During the cooldown
     * nothing is created or changed.
     * Otherwise a new attempt is created, one response is recorded per
     * answered question, the attempt is finished with the tally, and the
     * quiz reward is applied to the user's progress.
     */
    method Submit(preguntas: seq<Pregunta>, envio: map<int, int>, config: Option<ConfigVoz>,
                  now: int, progreso: Progress.Progreso) returns (r: SubmitResult)
      modifies this, progreso
      ensures !CanRetry(old(intentos), config, now) ==>
                r == Rejected(DaysToRetry(old(intentos), config, now))
                && intentos == old(intentos) && respuestas == old(respuestas)
                && progreso.State() == old(progreso.State())
      ensures CanRetry(old(intentos), config, now) ==>
                && r.Accepted? && r.intento == |old(intentos)| && r.xp == Progress.QuizXp
                && intentos == old(intentos) + [Intento(Puntaje(Correct(preguntas, envio), |preguntas|), now, true)]
                && respuestas == old(respuestas) + Responses(|old(intentos)|, preguntas, envio)
                && (progreso.State(), r.subioNivel) == Progress.AfterQuiz(old(progreso.State()), DateOf(now))
                && r.nivelNuevo == progreso.State().nivel
    {
      if !CanRetry(intentos, config, now) {
        return Rejected(DaysToRetry(intentos, config, now));
      }
      var id := |intentos|;
      intentos := intentos + [Intento(Puntaje(0, 0), now, false)];
      var total := |preguntas|;
      var correctas := RecordResponses(id, preguntas, envio);
      var puntaje := Puntaje(correctas, total);
      var subio := progreso.RewardQuiz(DateOf(now));
      intentos := intentos[..id] + [Intento(puntaje, now, true)];
      r := Accepted(id, Progress.QuizXp, subio, progreso.nivel);
    }
  }
}
