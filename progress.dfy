/**
 * Progression engine: experience, level and daily streak of one user. Two
 * update paths exist side by side: one per chat turn (flat +10 XP, absolute
 * level formula, once-a-day streak) and one per completed quiz (+50 XP,
 * unconditional streak increment, single-step threshold levelling).
 * Calendar dates are day numbers.
 */
module Progress {
  import opened Wrappers

  const TurnXp := 10
  const QuizXp := 50

  /** The fields of a `ProgresoUsuario` record that the engine reads and writes. */
  datatype Snapshot = Snapshot(nivel: int, experiencia: int, racha: int, ultima: int)

  /** What a chat turn reports back to the client. */
  datatype Eventos = Eventos(
    subioNivel: bool,
    rachaAumentada: bool,
    xpGanada: int,
    nivelActual: int,
    xpActual: int,
    rachaActual: int
  )

  /** A record as `get_or_create` makes it on day `hoy`. */
  function Fresh(hoy: int): Snapshot
  {
    Snapshot(1, 0, 0, hoy)
  }

  datatype Streak = Streak(racha: int, ultima: int, aumentada: bool)

  /**
   * The once-a-day streak update. Activity exactly yesterday extends the
   * streak; a longer gap on an existing record restarts it at 1; otherwise a
   * streak of 0 becomes 1. A record already touched today is left alone.
   */
  function StreakStep(racha: int, ultima: int, hoy: int, creado: bool): (r: Streak)
    ensures ultima >= hoy ==> r == Streak(racha, ultima, false)
    ensures r.aumentada <==> ultima == hoy - 1
    ensures ultima == hoy - 1 ==> r.racha == racha + 1
    ensures ultima < hoy - 1 && !creado ==> r.racha == 1
    ensures ultima < hoy - 1 && creado ==> r.racha == (if racha == 0 then 1 else racha)
    ensures ultima < hoy ==> r.ultima == hoy
    ensures ultima < hoy && racha >= 0 ==> r.racha >= 1
  {
    if ultima < hoy then
      if ultima == hoy - 1 then Streak(racha + 1, hoy, true)
      else if ultima < hoy - 1 && !creado then Streak(1, hoy, false)
      else Streak(if racha == 0 then 1 else racha, hoy, false)
    else Streak(racha, ultima, false)
  }

  /** The absolute level formula: one level per 100 XP, starting at 1. */
  function LevelFor(experiencia: int): int
  {
    experiencia / 100 + 1
  }

  /**
   * One chat turn's update of the record, and the events it reports. `creado`
   * says that this call's `get_or_create` made the record: its in-memory
   * activity date is then still the field default, a datetime, and comparing
   * it with today's date raises `TypeError`, so nothing is saved and the turn
   * fails (`None`). A record made earlier (by any other view) was read back
   * from the database and holds a date.
   */
  function AfterTurn(p: Snapshot, hoy: int, creado: bool): (r: Option<(Snapshot, Eventos)>)
    ensures r.None? <==> creado
    ensures r.Some? ==> var (q, ev) := r.value;
      && ev.xpGanada == TurnXp && q.experiencia == p.experiencia + TurnXp
      && q.nivel >= p.nivel && q.nivel >= LevelFor(q.experiencia)
      && (q.nivel == p.nivel || q.nivel == LevelFor(q.experiencia))
      && (ev.subioNivel <==> q.nivel > p.nivel)
      && (ev.subioNivel <==> LevelFor(p.experiencia + TurnXp) > p.nivel)
      && (ev.rachaAumentada <==> p.ultima == hoy - 1)
      && (p.ultima == hoy - 1 ==> q.racha == p.racha + 1)
      && (p.ultima >= hoy ==> q.racha == p.racha && q.ultima == p.ultima)
      && (p.ultima < hoy - 1 ==> q.racha == 1)
      && (p.ultima < hoy ==> q.ultima == hoy)
      && ev.nivelActual == q.nivel && ev.xpActual == q.experiencia && ev.rachaActual == q.racha
  {
    if creado then None
    else
      var s := StreakStep(p.racha, p.ultima, hoy, creado);
      var exp := p.experiencia + TurnXp;
      var nuevo := LevelFor(exp);
      var nivel := if nuevo > p.nivel then nuevo else p.nivel;
      Some((Snapshot(nivel, exp, s.racha, s.ultima),
            Eventos(nuevo > p.nivel, s.aumentada, TurnXp, nivel, exp, s.racha)))
  }

  /** A second turn on the same day earns XP again but leaves the streak alone. */
  lemma SameDayTurnKeepsStreak(p: Snapshot, hoy: int)
    requires p.ultima <= hoy
    ensures var q := AfterTurn(p, hoy, false).value.0;
      var (q2, ev) := AfterTurn(q, hoy, false).value;
      q2.racha == q.racha && q2.ultima == q.ultima == hoy && !ev.rachaAumentada
      && q2.experiencia == p.experiencia + 2 * TurnXp
  {
  }

  /** `k` turns on consecutive days, one per day, starting on day `hoy`. */
  function AfterDays(p: Snapshot, hoy: int, k: nat): Snapshot
    decreases k
  {
    if k == 0 then p else AfterDays(AfterTurn(p, hoy, false).value.0, hoy + 1, k - 1)
  }

  /** Practising on `k` consecutive days after yesterday's activity extends the streak by `k`. */
  lemma {:induction false} ConsecutiveDaysExtendStreak(p: Snapshot, hoy: int, k: nat)
    requires p.ultima == hoy - 1
    ensures AfterDays(p, hoy, k).racha == p.racha + k
    ensures AfterDays(p, hoy, k).experiencia == p.experiencia + k * TurnXp
    ensures AfterDays(p, hoy, k).nivel >= p.nivel
    ensures k > 0 ==> AfterDays(p, hoy, k).ultima == hoy + k - 1
    decreases k
  {
    if k > 0 {
      var q := AfterTurn(p, hoy, false).value.0;
      ConsecutiveDaysExtendStreak(q, hoy + 1, k - 1);
    }
  }

  /**
   * A record made by the turn's own `get_or_create` fails that turn. A record
   * made earlier on day `creadoEn` (dated that day, streak 0) keeps the streak
   * at 0 for a turn the same day, and gets streak 1 from a turn on any later
   * day, reported as "aumentada" only the day after.
   */
  lemma FirstTurnOnFreshRecord(creadoEn: int, hoy: int)
    requires creadoEn <= hoy
    ensures AfterTurn(Fresh(hoy), hoy, true).None?
    ensures creadoEn == hoy ==> AfterTurn(Fresh(creadoEn), hoy, false).value.0 == Snapshot(1, TurnXp, 0, hoy)
    ensures creadoEn < hoy ==> var (q, ev) := AfterTurn(Fresh(creadoEn), hoy, false).value;
      q == Snapshot(1, TurnXp, 1, hoy) && (ev.rachaAumentada <==> creadoEn == hoy - 1)
  {
  }

  /**
   * The quiz reward: +50 XP, streak +1 whatever the date, activity date set to
   * today, and one level up (with `nivel * 500` XP taken away) when the XP
   * reaches the threshold. Reports whether the level rose.
   */
  function AfterQuiz(p: Snapshot, hoy: int): (r: (Snapshot, bool))
    ensures r.0.racha == p.racha + 1 && r.0.ultima == hoy
    ensures r.1 <==> p.experiencia + QuizXp >= p.nivel * 500
    ensures r.1 ==> r.0.nivel == p.nivel + 1 && r.0.experiencia == p.experiencia + QuizXp - p.nivel * 500
    ensures !r.1 ==> r.0.nivel == p.nivel && r.0.experiencia == p.experiencia + QuizXp
    ensures p.nivel >= 0 && p.experiencia >= 0 ==> r.0.experiencia >= 0
  {
    var exp := p.experiencia + QuizXp;
    var necesaria := p.nivel * 500;
    if exp >= necesaria then
      (Snapshot(p.nivel + 1, exp - necesaria, p.racha + 1, hoy), true)
    else
      (Snapshot(p.nivel, exp, p.racha + 1, hoy), false)
  }

  /**
   * The threshold check runs once: a balance that covers this level's and
   * the next level's thresholds rises by one level only and stays at or above
   * the new threshold.
   */
  lemma QuizLevelsOnlyOnce(p: Snapshot, hoy: int)
    requires p.nivel >= 1 && p.experiencia + QuizXp >= p.nivel * 500 + (p.nivel + 1) * 500
    ensures var (q, subio) := AfterQuiz(p, hoy);
      subio && q.nivel == p.nivel + 1 && q.experiencia >= q.nivel * 500
  {
  }

  /** A quiz marks today as active, so a chat turn later that day does not touch the streak. */
  lemma QuizThenTurnSameDay(p: Snapshot, hoy: int)
    ensures var q := AfterQuiz(p, hoy).0;
      AfterTurn(q, hoy, false).value.0.racha == p.racha + 1
  {
  }

  /** The `ProgresoUsuario` record, updated in place by both paths. */
  class Progreso {
    var nivel: int
    var experiencia: int
    var rachaActual: int
    var ultimaInteraccion: int

    function State(): Snapshot
      reads this
    {
      Snapshot(nivel, experiencia, rachaActual, ultimaInteraccion)
    }

    /** The record `get_or_create` makes on day `hoy`. */
    constructor (hoy: int)
      ensures State() == Fresh(hoy)
    {
      nivel, experiencia, rachaActual, ultimaInteraccion := 1, 0, 0, hoy;
    }

    /**
     * The per-turn update (`creado`: the record was made by this call's
     * `get_or_create`). `None` is the `TypeError` of that case, which leaves
     * the record as it was.
     */
    method UpdateForTurn(hoy: int, creado: bool) returns (ev: Option<Eventos>)
      modifies this
      ensures AfterTurn(old(State()), hoy, creado).None? ==> ev.None? && State() == old(State())
      ensures AfterTurn(old(State()), hoy, creado).Some? ==>
                ev == Some(AfterTurn(old(State()), hoy, creado).value.1)
                && State() == AfterTurn(old(State()), hoy, creado).value.0
    {
      if creado {
        return None;
      }
      var subio, aumentada := false, false;
      if ultimaInteraccion < hoy {
        if ultimaInteraccion == hoy - 1 {
          rachaActual := rachaActual + 1;
          aumentada := true;
        } else {
          // an older date on a record that was not just made; the source's
          // third branch (streak 0 becomes 1) needs `creado`, which failed above
          rachaActual := 1;
        }
        ultimaInteraccion := hoy;
      }
      experiencia := experiencia + TurnXp;
      var nuevoNivel := experiencia / 100 + 1;
      if nuevoNivel > nivel {
        nivel := nuevoNivel;
        subio := true;
      }
      ev := Some(Eventos(subio, aumentada, TurnXp, nivel, experiencia, rachaActual));
    }

    /** The reward for a completed quiz; returns whether the level rose. */
    method RewardQuiz(hoy: int) returns (subio: bool)
      modifies this
      ensures (State(), subio) == AfterQuiz(old(State()), hoy)
    {
      experiencia := experiencia + QuizXp;
      rachaActual := rachaActual + 1;
      ultimaInteraccion := hoy;
      var necesaria := nivel * 500;
      subio := false;
      if experiencia >= necesaria {
        nivel := nivel + 1;
        experiencia := experiencia - necesaria;
        subio := true;
      }
    }
  }
}
