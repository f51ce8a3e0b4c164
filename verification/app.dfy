/**
 * The interaction loop of the user registry: a command token is read, mapped
 * to one of the four actions or to the default branch, the follow-up answers
 * are handed to the record store, and the loop repeats until `quit`. The
 * prompts are replaced by a finite script of turns and the loop by a fold
 * over that script.
 */
module App {
  import opened Names
  import opened Users

  /** The recognised command tokens, plus the default branch. */
  datatype Action = ListAction | AddAction | RemoveAction | QuitAction | Unknown

  /**
   * One round of the loop: the token typed at the command prompt and the
   * answers the follow-up prompts would receive. `list` and `quit` ask for
   * neither answer, `remove` asks for the name only.
   */
  datatype Turn = Turn(token: string, name: string, age: Age)

  /** What one round leaves behind: the store, what was shown, and whether to prompt again. */
  datatype StepResult = StepResult(store: seq<User>, notices: seq<Notice>, running: bool)

  /** What a whole script leaves behind; `quit` is set when the loop ended by `quit`. */
  datatype RunResult = RunResult(store: seq<User>, notices: seq<Notice>, quit: bool)

  const ByeText := "Bye Bye!"
  const UnknownText := "Command not found"

  /** Exact, case-sensitive matching of the command token. */
  function Classify(token: string): (a: Action)
    ensures a == ListAction <==> token == "list"
    ensures a == AddAction <==> token == "add"
    ensures a == RemoveAction <==> token == "remove"
    ensures a == QuitAction <==> token == "quit"
  {
    if token == "list" then ListAction
    else if token == "add" then AddAction
    else if token == "remove" then RemoveAction
    else if token == "quit" then QuitAction
    else Unknown
  }

  /** One round of the command switch. */
  function Step(store: seq<User>, turn: Turn): (r: StepResult)
    ensures !r.running <==> Classify(turn.token) == QuitAction
    ensures Classify(turn.token) == QuitAction ==>
      r.store == store && r.notices == [Notify(Info, ByeText)]
    ensures Classify(turn.token) == Unknown ==>
      r.store == store && r.notices == [Notify(Error, UnknownText)]
    ensures Classify(turn.token) == ListAction ==>
      && r.store == store
      && r.notices == ShowAll(store).notices
      && (Notify(Error, NoDataText) in r.notices <==> store == [])
    ensures Classify(turn.token) == AddAction ==>
      r.store == Add(store, turn.name, turn.age).store
      && r.notices == Add(store, turn.name, turn.age).notices
    ensures Classify(turn.token) == RemoveAction ==>
      r.store == Without(store, Normalize(turn.name))
      && r.notices == Remove(store, turn.name).notices
  {
    match Classify(turn.token)
    case ListAction =>
      var o := ShowAll(store);
      StepResult(o.store, o.notices, true)
    case AddAction =>
      var o := Add(store, turn.name, turn.age);
      StepResult(o.store, o.notices, true)
    case RemoveAction =>
      var o := Remove(store, turn.name);
      StepResult(o.store, o.notices, true)
    case QuitAction =>
      StepResult(store, [Notify(Info, ByeText)], false)
    case Unknown =>
      StepResult(store, [Notify(Error, UnknownText)], true)
  }

  /** A round never stores a record that `add` would have refused. */
  lemma StepKeepsValid(store: seq<User>, turn: Turn)
    ensures ValidStore(store) ==> ValidStore(Step(store, turn).store)
  {
    if ValidStore(store) {
      match Classify(turn.token)
      case AddAction => AddKeepsValid(store, turn.name, turn.age);
      case RemoveAction => RemoveKeepsValid(store, turn.name);
      case _ =>
    }
  }

  /** True if the turn's token is `quit`. */
  predicate IsQuit(turn: Turn) {
    Classify(turn.token) == QuitAction
  }

  /** True if some turn of the script is `quit`. */
  predicate HasQuit(script: seq<Turn>) {
    script != [] && (IsQuit(script[0]) || HasQuit(script[1..]))
  }

  /** The loop: run the script turn by turn, stopping after the first `quit`. */
  function Run(store: seq<User>, script: seq<Turn>): (r: RunResult)
    ensures r.quit <==> HasQuit(script)
    ensures ValidStore(store) ==> ValidStore(r.store)
    decreases |script|
  {
    if script == [] then RunResult(store, [], false)
    else
      var s := Step(store, script[0]);
      StepKeepsValid(store, script[0]);
      if !s.running then RunResult(s.store, s.notices, true)
      else
        var rest := Run(s.store, script[1..]);
        RunResult(rest.store, s.notices + rest.notices, rest.quit)
  }

  /** `HasQuit` holds exactly when some position of the script holds a `quit` turn. */
  lemma {:induction false} HasQuitAt(script: seq<Turn>)
    ensures HasQuit(script) <==> exists i :: 0 <= i < |script| && IsQuit(script[i])
  {
    if script != [] {
      var rest := script[1..];
      HasQuitAt(rest);
      if HasQuit(rest) {
        var i :| 0 <= i < |rest| && IsQuit(rest[i]);
        assert script[i + 1] == rest[i];
      }
      if !IsQuit(script[0]) && !HasQuit(rest) {
        forall i | 0 <= i < |script|
          ensures !IsQuit(script[i])
        {
          if i > 0 {
            assert script[i] == rest[i - 1];
          }
        }
      }
    }
  }

  /** Concatenation of notice lists is associative. */
  lemma ConcatAssoc(x: seq<Notice>, y: seq<Notice>, z: seq<Notice>)
    ensures x + (y + z) == (x + y) + z
  {
  }

  /** One round that does not quit, followed by the rest of the script. */
  lemma RunCons(store: seq<User>, script: seq<Turn>)
    requires script != [] && !IsQuit(script[0])
    ensures var s := Step(store, script[0]);
      var rest := Run(s.store, script[1..]);
      Run(store, script) == RunResult(rest.store, s.notices + rest.notices, rest.quit)
  {
  }

  /** Running two scripts back to back, when the first never quits. */
  lemma {:induction false} RunAppend(store: seq<User>, a: seq<Turn>, b: seq<Turn>)
    requires !HasQuit(a)
    decreases |a|
    ensures var first := Run(store, a);
      var second := Run(first.store, b);
      Run(store, a + b) == RunResult(second.store, first.notices + second.notices, second.quit)
  {
    if a == [] {
      assert a + b == b;
      var second := Run(store, b);
      assert Run(store, a) == RunResult(store, [], false);
      assert [] + second.notices == second.notices;
    } else {
      var ab := a + b;
      assert ab[0] == a[0] && ab[1..] == a[1..] + b;
      var s := Step(store, a[0]);
      var mid := Run(s.store, a[1..]);
      var second := Run(mid.store, b);
      var rest := Run(s.store, a[1..] + b);
      assert Run(store, a) == RunResult(mid.store, s.notices + mid.notices, mid.quit) by {
        RunCons(store, a);
      }
      assert Run(store, ab) == RunResult(rest.store, s.notices + rest.notices, rest.quit) by {
        RunCons(store, ab);
      }
      assert rest == RunResult(second.store, mid.notices + second.notices, second.quit) by {
        RunAppend(s.store, a[1..], b);
      }
      ConcatAssoc(s.notices, mid.notices, second.notices);
    }
  }

  /** Nothing typed after `quit` is ever read. */
  lemma {:induction false} RunStopsAtQuit(store: seq<User>, a: seq<Turn>, b: seq<Turn>)
    requires HasQuit(a)
    ensures Run(store, a + b) == Run(store, a)
    decreases |a|
  {
    var ab := a + b;
    assert ab[0] == a[0];
    assert ab[1..] == a[1..] + b;
    if !IsQuit(a[0]) {
      RunStopsAtQuit(Step(store, a[0]).store, a[1..], b);
    }
  }

  /** A fresh registry: add "bob" aged 30, remove "BOB", remove "Bob" again. */
  lemma BobScenario()
    ensures var s1 := Step([], Turn("add", "bob", Num(30)));
      && s1.store == [User("Bob", 30)]
      && var s2 := Step(s1.store, Turn("remove", "BOB", NaN));
      && s2.store == []
      && s2.notices == [Notify(Success, DeletedText)]
      && var s3 := Step(s2.store, Turn("remove", "Bob", NaN));
      && s3.store == []
      && s3.notices == [Notify(Error, NotFoundText)]
  {
    NormalizeExamples();
  }

  /** An empty name is refused, and listing the still empty store reports no data. */
  lemma EmptyNameScenario()
    ensures var s1 := Step([], Turn("add", "", Num(25)));
      && s1.store == []
      && s1.notices == [Notify(Error, WrongDataText)]
      && Step(s1.store, Turn("list", "", NaN)).notices
         == [Notify(Info, HeadingText), Notify(Error, NoDataText)]
  {
  }
}
