/**
 * The in-memory session store: a dictionary from session id to the list of
 * (user, bot) turns of that session. Reads are lazy; an update appends one
 * turn and then applies the retention rule, which, once the list is longer
 * than 8, keeps only its last 2 turns.
 */
module SessionManager {

  /** One exchange: what the user said and what the bot answered. */
  datatype Turn = Turn(user: string, bot: string)

  /** The length above which the retention rule cuts the list. */
  const MaxTurns := 8

  /** How many of the most recent turns the cut keeps (the `[-2:]` slice). */
  const KeptOnOverflow := 2

  /**
   * A session's history after one update: the new turn is appended, and a list
   * that grew past `MaxTurns` is cut down to its last `KeptOnOverflow` turns.
   */
  function AppendTurn(history: seq<Turn>, turn: Turn): (r: seq<Turn>)
    ensures 1 <= |r| <= MaxTurns
    ensures r[|r| - 1] == turn
    ensures |history| < MaxTurns ==> r == history + [turn]
    ensures |history| >= MaxTurns ==> r == [history[|history| - 1], turn]
  {
    var appended := history + [turn];
    if |appended| > MaxTurns then appended[|appended| - KeptOnOverflow..] else appended
  }

  /** The history left after applying the updates `turns`, oldest first, to `history`. */
  function Replay(history: seq<Turn>, turns: seq<Turn>): seq<Turn>
  {
    if turns == [] then history
    else AppendTurn(Replay(history, turns[..|turns| - 1]), turns[|turns| - 1])
  }

  /**
   * The length of a fresh session after n updates: 1, 2, ..., 8, then the
   * 9th update drops it to 2, and it climbs 2..8 again every 7 updates.
   */
  function CycleLength(n: nat): nat
  {
    if n <= MaxTurns then n else 2 + (n - 9) % 7
  }

  /** While the history stays within the cap, updates only append. */
  lemma {:induction false} ReplayWithinCap(history: seq<Turn>, turns: seq<Turn>)
    requires |history| + |turns| <= MaxTurns
    ensures Replay(history, turns) == history + turns
  {
    if turns != [] {
      var init := turns[..|turns| - 1];
      ReplayWithinCap(history, init);
      assert history + init + [turns[|turns| - 1]] == history + turns;
    }
  }

  /** Lengths of a fresh session follow the 1..8, 2..8, 2..8, ... cycle. */
  lemma {:induction false} ReplayLengthCycle(turns: seq<Turn>)
    ensures |Replay([], turns)| == CycleLength(|turns|)
  {
    var n := |turns|;
    if n > 0 {
      ReplayLengthCycle(turns[..n - 1]);
      if n - 1 > MaxTurns {
        var q := (n - 10) / 7;
        assert n - 10 == 7 * q + (n - 10) % 7;
        if (n - 10) % 7 == 6 {
          assert n - 9 == 7 * (q + 1);
        } else {
          assert n - 9 == 7 * q + ((n - 10) % 7 + 1);
        }
      }
    }
  }

  /** Nine updates on a fresh session leave exactly two turns: the 8th and the 9th. */
  lemma {:induction false} NineUpdatesKeepLastTwo(turns: seq<Turn>)
    requires |turns| == 9
    ensures Replay([], turns) == [turns[7], turns[8]]
  {
    ReplayWithinCap([], turns[..8]);
    assert turns[..9][..8] == turns[..8];
    assert turns[..9] == turns;
  }

  /**
   * Whatever the starting history, what is kept is always a contiguous run of
   * the most recent turns: a suffix of the old history followed by the updates.
   */
  lemma {:induction false} ReplayKeepsMostRecent(history: seq<Turn>, turns: seq<Turn>)
    ensures |Replay(history, turns)| <= |history| + |turns|
    ensures Replay(history, turns) == (history + turns)[|history| + |turns| - |Replay(history, turns)|..]
  {
    if turns != [] {
      var init := turns[..|turns| - 1];
      var t := turns[|turns| - 1];
      ReplayKeepsMostRecent(history, init);
      var all := history + turns;
      assert history + init == all[..|all| - 1];
      assert all == (history + init) + [t];
    } else {
      assert history + turns == history;
    }
  }

  /**
   * The chat handler stores each exchange twice (once inside the response
   * generator and once more itself); after such a request the history always
   * ends with two copies of the same turn.
   */
  lemma {:induction false} RequestStoresTurnTwice(history: seq<Turn>, turn: Turn)
    ensures |AppendTurn(AppendTurn(history, turn), turn)| >= 2
    ensures var h := AppendTurn(AppendTurn(history, turn), turn);
      h[|h| - 2] == turn && h[|h| - 1] == turn
  {
    var once := AppendTurn(history, turn);
    assert once[|once| - 1] == turn;
  }

  /** The process-wide session dictionary. */
  class SessionStore {
    var sessions: map<string, seq<Turn>>

    /**
     * The at-rest invariant of the store: every stored session holds between 1
     * and `MaxTurns` turns. `AppendTurn` bounds the session being updated;
     * `Update` needs this predicate beforehand only for the sessions it leaves alone.
     */
    ghost predicate Valid()
      reads this
    {
      forall id :: id in sessions ==> 1 <= |sessions[id]| <= MaxTurns
    }

    /** The store starts empty. */
    constructor ()
      ensures Valid() && sessions == map[]
    {
      sessions := map[];
    }

    /** The turns of session `id`, the empty list for an unknown id. */
    function HistoryOf(id: string): seq<Turn>
      reads this
    {
      if id in sessions then sessions[id] else []
    }

    /**
     * get_session_history: the session's turns, or [] for an unknown id; the
     * store is not modified, so an unknown id is not inserted.
     */
    method Get(id: string) returns (history: seq<Turn>)
      ensures id in sessions ==> history == sessions[id]
      ensures id !in sessions ==> history == []
    {
      history := if id in sessions then sessions[id] else [];
    }

    /**
     * update_session_history: creates the session if absent, appends the turn,
     * then keeps only the last 2 turns if the list grew past 8. No other
     * session is touched.
     */
    method Update(id: string, userInput: string, botResponse: string)
      requires Valid()
      modifies this
      ensures Valid()
      ensures sessions == old(sessions)[id := AppendTurn(old(HistoryOf(id)), Turn(userInput, botResponse))]
      ensures id !in old(sessions) ==> sessions[id] == [Turn(userInput, botResponse)]
      ensures sessions.Keys == old(sessions).Keys + {id}
      ensures forall other :: other != id && other in old(sessions) ==> sessions[other] == old(sessions)[other]
    {
      if id !in sessions {
        sessions := sessions[id := []];
      }
      sessions := sessions[id := sessions[id] + [Turn(userInput, botResponse)]];
      if |sessions[id]| > MaxTurns {
        var h := sessions[id];
        sessions := sessions[id := h[|h| - KeptOnOverflow..]];
      }
    }
  }
}
