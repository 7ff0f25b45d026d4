/**
 The SQL transaction tracker (crates/tauri-plugin-baresync/src/commands.rs, lines 109-180): a counter and a flag
 that decide, statement by statement, whether local writes have become visible and polling should wake up.
 They are compared with the stack of transactions and savepoints that SQLite keeps.
 */
module SqlTracker {
  import opened Wrappers

  datatype Action = BeginAction | CommitAction | RollbackAction | OtherAction

  // ---------------------------------------------------------------------------------------------
  // Classification of a statement by its first word
  // ---------------------------------------------------------------------------------------------

  /** The white space of Unicode (White_Space in PropList.txt of the Unicode Character Database). */
  predicate IsSpace(c: char) {
    var n := c as int;
    || 0x09 <= n <= 0x0D || n == 0x20 || n == 0x85 || n == 0xA0 || n == 0x1680 || 0x2000 <= n <= 0x200A
    || n == 0x2028 || n == 0x2029 || n == 0x202F || n == 0x205F || n == 0x3000
  }

  predicate EndsWord(c: char) { IsSpace(c) || c == ';' }

  function LowerChar(c: char): char {
    if 'A' <= c <= 'Z' then ((c as int) + 32) as char else c
  }

  function TrimStart(s: string): string {
    if s != [] && IsSpace(s[0]) then TrimStart(s[1..]) else s
  }

  function LowerWord(s: string): string {
    if s == [] || EndsWord(s[0]) then [] else [LowerChar(s[0])] + LowerWord(s[1..])
  }

  function Lower(s: string): string {
    seq(|s|, i requires 0 <= i < |s| => LowerChar(s[i]))
  }

  function Classify(sql: string): Action {
    var word := LowerWord(TrimStart(sql));
    if word == "begin" || word == "savepoint" then BeginAction
    else if word == "commit" || word == "release" then CommitAction
    else if word == "rollback" then RollbackAction
    else OtherAction
  }

  lemma {:induction false} TrimPadding(padding: string, s: string)
    requires (forall c :: c in padding ==> IsSpace(c)) && (s != [] ==> !IsSpace(s[0]))
    ensures TrimStart(padding + s) == s
  {
    if padding == [] {
      assert padding + s == s;
    } else {
      TrimPadding(padding[1..], s);
      assert (padding + s)[1..] == padding[1..] + s;
    }
  }

  lemma {:induction false} WordEnds(word: string, rest: string)
    requires (forall c :: c in word ==> !EndsWord(c)) && (rest != [] ==> EndsWord(rest[0]))
    ensures LowerWord(word + rest) == Lower(word)
  {
    if word == [] {
      assert word + rest == rest;
    } else {
      WordEnds(word[1..], rest);
      assert (word + rest)[1..] == word[1..] + rest;
      assert Lower(word) == [LowerChar(word[0])] + Lower(word[1..]);
    }
  }

  /** Only the first word counts, in any case and behind any white space; in front of a semicolon it is empty. */
  lemma ClassifiedByFirstWord(padding: string, word: string, rest: string)
    requires forall c :: c in padding ==> IsSpace(c)
    requires forall c :: c in word ==> !EndsWord(c)
    requires rest != [] ==> EndsWord(rest[0]) && (word == [] ==> !IsSpace(rest[0]))
    ensures Classify(padding + word + rest) ==
      match Lower(word) {
        case "begin" => BeginAction
        case "savepoint" => BeginAction
        case "commit" => CommitAction
        case "release" => CommitAction
        case "rollback" => RollbackAction
        case _ => OtherAction
      }
  {
    assert word != [] ==> word[0] in word;
    assert padding + word + rest == padding + (word + rest);
    TrimPadding(padding, word + rest);
    WordEnds(word, rest);
  }

  // ---------------------------------------------------------------------------------------------
  // The tracker
  // ---------------------------------------------------------------------------------------------

  datatype Tracker = Tracker(depth: nat, hasWrites: bool)

  function After(t: Tracker, action: Action, rowsAffected: nat): Tracker {
    match action
    case BeginAction => t.(depth := t.depth + 1)
    case CommitAction => Tracker(if t.depth > 0 then t.depth - 1 else 0, t.depth > 1 && t.hasWrites)
    case RollbackAction => Tracker(0, false)
    case OtherAction => if rowsAffected > 0 && t.depth > 0 then t.(hasWrites := true) else t
  }

  predicate Notifies(t: Tracker, action: Action, rowsAffected: nat) {
    match action
    case CommitAction => t.depth <= 1 && t.hasWrites
    case OtherAction => rowsAffected > 0 && t.depth == 0
    case _ => false
  }

  class SqlState {
    var sqlTransactionDepth: nat
    var sqlTransactionHasWrites: bool

    constructor ()
      ensures Value() == Tracker(0, false)
    {
      sqlTransactionDepth, sqlTransactionHasWrites := 0, false;
    }

    function Value(): Tracker
      reads this
    {
      Tracker(sqlTransactionDepth, sqlTransactionHasWrites)
    }

    method ShouldNotifyAfterSql(queryMethod: string, action: Action, rowsAffected: nat) returns (notify: bool)
      modifies this
      ensures queryMethod != "run" ==> !notify && Value() == old(Value())
      ensures queryMethod == "run" ==>
        notify == Notifies(old(Value()), action, rowsAffected) && Value() == After(old(Value()), action, rowsAffected)
    {
      if queryMethod != "run" {
        return false;
      }
      match action {
        case BeginAction =>
          sqlTransactionDepth := sqlTransactionDepth + 1;
          return false;
        case CommitAction =>
          var previousDepth := sqlTransactionDepth;
          if previousDepth > 0 {
            sqlTransactionDepth := sqlTransactionDepth - 1;
          }
          if previousDepth <= 1 {
            notify := sqlTransactionHasWrites;
            sqlTransactionHasWrites := false;
            return notify;
          }
          return false;
        case RollbackAction =>
          sqlTransactionDepth := 0;
          sqlTransactionHasWrites := false;
          return false;
        case OtherAction =>
          if rowsAffected == 0 {
            return false;
          }
          if sqlTransactionDepth > 0 {
            sqlTransactionHasWrites := true;
            return false;
          }
          return true;
      }
    }
  }

  // ---------------------------------------------------------------------------------------------
  // SQLite's stack of open transactions
  // ---------------------------------------------------------------------------------------------

  datatype Statement =
    | Begin
    | Savepoint(name: string)
    | Commit
    | Release(name: string)
    | Rollback
    | RollbackTo(name: string)
    | Write(rows: nat)

  function ActionOf(s: Statement): Action {
    match s
    case Begin => BeginAction
    case Savepoint(_) => BeginAction
    case Commit => CommitAction
    case Release(_) => CommitAction
    case Rollback => RollbackAction
    case RollbackTo(_) => RollbackAction
    case Write(_) => OtherAction
  }

  function RowsOf(s: Statement): nat {
    if s.Write? then s.rows else 0
  }

  /** An open transaction (no name) or savepoint, and whether it holds writes of its own. */
  datatype Frame = Frame(name: Option<string>, wrote: bool)

  predicate AnyWrote(stack: seq<Frame>) {
    exists f :: f in stack && f.wrote
  }

  /** The innermost open savepoint of that name, as an index into the stack; the stack's length if there is none. */
  function Innermost(stack: seq<Frame>, name: string): (k: nat)
    ensures k <= |stack|
    ensures k < |stack| ==> stack[k].name == Some(name)
    ensures forall i :: (if k < |stack| then k + 1 else 0) <= i < |stack| ==> stack[i].name != Some(name)
  {
    if stack == [] then 0
    else if stack[|stack| - 1].name == Some(name) then |stack| - 1
    else
      var k := Innermost(stack[..|stack| - 1], name);
      if k == |stack| - 1 then |stack| else k
  }

  /** The statements SQLite executes; the others fail and never reach the tracker. */
  predicate Executes(stack: seq<Frame>, s: Statement) {
    match s
    case Begin => stack == []
    case Commit => stack != []
    case Rollback => stack != []
    case Release(n) => Innermost(stack, n) < |stack|
    case RollbackTo(n) => Innermost(stack, n) < |stack|
    case _ => true
  }

  /** Closes the frames from index `k` on, handing their writes to the frame below. */
  function CloseFrom(stack: seq<Frame>, k: nat): seq<Frame>
    requires k < |stack|
  {
    if k == 0 then []
    else stack[..k - 1] + [Frame(stack[k - 1].name, stack[k - 1].wrote || AnyWrote(stack[k..]))]
  }

  function Execute(stack: seq<Frame>, s: Statement): seq<Frame>
    requires Executes(stack, s)
  {
    match s
    case Begin => [Frame(None, false)]
    case Savepoint(n) => stack + [Frame(Some(n), false)]
    case Commit => []
    case Rollback => []
    case Release(n) => CloseFrom(stack, Innermost(stack, n))
    case RollbackTo(n) => stack[..Innermost(stack, n)] + [Frame(Some(n), false)]
    case Write(rows) =>
      if rows == 0 || stack == [] then stack
      else stack[..|stack| - 1] + [stack[|stack| - 1].(wrote := true)]
  }

  /** Writes become visible: one outside any transaction, or the outermost commit of some. */
  predicate Publishes(stack: seq<Frame>, s: Statement)
    requires Executes(stack, s)
  {
    match s
    case Write(rows) => rows > 0 && stack == []
    case Commit => AnyWrote(stack)
    case Release(n) => Innermost(stack, n) == 0 && AnyWrote(stack)
    case _ => false
  }

  /** A commit closes a lone frame, a release names the innermost frame, and nothing rolls back to a savepoint. */
  predicate Matched(stack: seq<Frame>, s: Statement) {
    match s
    case Commit => |stack| == 1
    case Release(n) => stack != [] && stack[|stack| - 1].name == Some(n)
    case RollbackTo(_) => false
    case _ => true
  }

  ghost predicate Represents(t: Tracker, stack: seq<Frame>) {
    t.depth == |stack| && t.hasWrites == AnyWrote(stack)
  }

  lemma MatchedStep(t: Tracker, stack: seq<Frame>, s: Statement)
    requires Represents(t, stack) && Executes(stack, s) && Matched(stack, s)
    ensures Represents(After(t, ActionOf(s), RowsOf(s)), Execute(stack, s))
    ensures Notifies(t, ActionOf(s), RowsOf(s)) == Publishes(stack, s)
  {
  }

  /** From an agreeing depth, a statement keeps the depths equal exactly if it is matched. */
  lemma DepthStep(t: Tracker, stack: seq<Frame>, s: Statement)
    requires t.depth == |stack| && Executes(stack, s)
    ensures After(t, ActionOf(s), RowsOf(s)).depth == |Execute(stack, s)| <==> Matched(stack, s)
  {
  }

  // ---------------------------------------------------------------------------------------------
  // Runs
  // ---------------------------------------------------------------------------------------------

  ghost predicate ExecutableRun(run: seq<Statement>)
    decreases |run|, 0
  {
    run == [] ||
    (ExecutableRun(run[..|run| - 1]) && Executes(StackAfter(run[..|run| - 1]), run[|run| - 1]))
  }

  ghost function StackAfter(run: seq<Statement>): seq<Frame>
    requires ExecutableRun(run)
    decreases |run|, 1
  {
    if run == [] then [] else Execute(StackAfter(run[..|run| - 1]), run[|run| - 1])
  }

  function TrackerAfter(run: seq<Statement>): Tracker {
    if run == [] then Tracker(0, false)
    else After(TrackerAfter(run[..|run| - 1]), ActionOf(run[|run| - 1]), RowsOf(run[|run| - 1]))
  }

  ghost predicate MatchedRun(run: seq<Statement>)
    requires ExecutableRun(run)
  {
    run == [] || (MatchedRun(run[..|run| - 1]) && Matched(StackAfter(run[..|run| - 1]), run[|run| - 1]))
  }

  /** At every point of the run the counter shows the nesting depth. */
  ghost predicate CountsDepth(run: seq<Statement>)
    requires ExecutableRun(run)
  {
    && (run == [] || CountsDepth(run[..|run| - 1]))
    && TrackerAfter(run).depth == |StackAfter(run)|
  }

  lemma {:induction false} MatchedRunRepresents(run: seq<Statement>)
    requires ExecutableRun(run) && MatchedRun(run)
    ensures Represents(TrackerAfter(run), StackAfter(run))
  {
    if run != [] {
      var rest := run[..|run| - 1];
      MatchedRunRepresents(rest);
      MatchedStep(TrackerAfter(rest), StackAfter(rest), run[|run| - 1]);
    }
  }

  /** The counter shows the nesting depth throughout exactly in the matched runs. */
  lemma {:induction false} CounterIsDepthIffMatched(run: seq<Statement>)
    requires ExecutableRun(run)
    ensures CountsDepth(run) <==> MatchedRun(run)
  {
    if run != [] {
      var rest := run[..|run| - 1];
      CounterIsDepthIffMatched(rest);
      if CountsDepth(rest) {
        DepthStep(TrackerAfter(rest), StackAfter(rest), run[|run| - 1]);
      }
    }
  }

  /** After a matched run, the next matched statement notifies exactly when it publishes writes. */
  lemma NotificationRefinesNesting(run: seq<Statement>, s: Statement)
    requires ExecutableRun(run + [s]) && ExecutableRun(run) && MatchedRun(run)
    requires Executes(StackAfter(run), s) && Matched(StackAfter(run), s)
    ensures Notifies(TrackerAfter(run), ActionOf(s), RowsOf(s)) == Publishes(StackAfter(run), s)
  {
    MatchedRunRepresents(run);
    MatchedStep(TrackerAfter(run), StackAfter(run), s);
  }

  // ---------------------------------------------------------------------------------------------
  // What follows tells whether the tracker is right
  // ---------------------------------------------------------------------------------------------

  /** Statements that SQLite executes from a stack on, each of them matched. */
  ghost predicate MatchedFrom(stack: seq<Frame>, next: seq<Statement>)
    decreases |next|
  {
    next == [] ||
    (Executes(stack, next[0]) && Matched(stack, next[0]) && MatchedFrom(Execute(stack, next[0]), next[1..]))
  }

  /** Each of them notifies exactly if it publishes writes. */
  ghost predicate NotifiesAsPublished(t: Tracker, stack: seq<Frame>, next: seq<Statement>)
    requires MatchedFrom(stack, next)
    decreases |next|
  {
    next == [] ||
    (Notifies(t, ActionOf(next[0]), RowsOf(next[0])) == Publishes(stack, next[0])
     && NotifiesAsPublished(After(t, ActionOf(next[0]), RowsOf(next[0])), Execute(stack, next[0]), next[1..]))
  }

  /** Only the outermost frame can be a transaction without a name. */
  ghost predicate Named(stack: seq<Frame>) {
    forall i :: 0 < i < |stack| ==> stack[i].name.Some?
  }

  lemma {:induction false} StacksAreNamed(run: seq<Statement>)
    requires ExecutableRun(run)
    ensures Named(StackAfter(run))
  {
    if run != [] {
      StacksAreNamed(run[..|run| - 1]);
    }
  }

  lemma {:induction false} RightTrackerStaysRight(t: Tracker, stack: seq<Frame>, next: seq<Statement>)
    requires Represents(t, stack) && MatchedFrom(stack, next)
    ensures NotifiesAsPublished(t, stack, next)
    decreases |next|
  {
    if next != [] {
      MatchedStep(t, stack, next[0]);
      RightTrackerStaysRight(After(t, ActionOf(next[0]), RowsOf(next[0])), Execute(stack, next[0]), next[1..]);
    }
  }

  /** Closes the innermost frame. */
  function Close(stack: seq<Frame>): Statement
    requires stack != []
  {
    match stack[|stack| - 1].name
    case Some(n) => Release(n)
    case None => Commit
  }

  lemma CloseStep(t: Tracker, stack: seq<Frame>)
    requires stack != [] && Named(stack) && t.depth > 0
    ensures Executes(stack, Close(stack)) && Matched(stack, Close(stack)) && ActionOf(Close(stack)) == CommitAction
    ensures var rest := Execute(stack, Close(stack));
      Named(rest) && |rest| == |stack| - 1 && (|stack| > 1 ==> (AnyWrote(rest) <==> AnyWrote(stack)))
    ensures Publishes(stack, Close(stack)) <==> |stack| == 1 && AnyWrote(stack)
  {
    var top := stack[|stack| - 1];
    if |stack| > 1 {
      var rest := Execute(stack, Close(stack));
      assert rest == CloseFrom(stack, |stack| - 1);
      assert stack[|stack| - 1..] == [top];
      assert stack == stack[..|stack| - 2] + [stack[|stack| - 2], top];
    } else {
      assert stack == [top];
    }
  }

  /** Closing every frame, one after the other. */
  ghost function CloseAll(stack: seq<Frame>): seq<Statement>
    requires Named(stack)
    decreases |stack|
  {
    if stack == [] then []
    else
      CloseStep(Tracker(1, false), stack);
      [Close(stack)] + CloseAll(Execute(stack, Close(stack)))
  }

  lemma {:induction false} CloseAllMatches(stack: seq<Frame>)
    requires Named(stack)
    ensures MatchedFrom(stack, CloseAll(stack))
    decreases |stack|
  {
    if stack != [] {
      CloseStep(Tracker(1, false), stack);
      CloseAllMatches(Execute(stack, Close(stack)));
      assert CloseAll(stack)[1..] == CloseAll(Execute(stack, Close(stack)));
    }
  }

  /** A wrong depth, or a wrong flag at the right depth, shows by the time all frames are closed. */
  lemma {:induction false} ClosingTells(t: Tracker, stack: seq<Frame>)
    requires Named(stack) && stack != [] && t.depth > 0
    requires if t.depth == |stack| then t.hasWrites != AnyWrote(stack) else t.hasWrites && AnyWrote(stack)
    ensures MatchedFrom(stack, CloseAll(stack)) && !NotifiesAsPublished(t, stack, CloseAll(stack))
    decreases |stack|
  {
    CloseAllMatches(stack);
    CloseStep(t, stack);
    var rest := Execute(stack, Close(stack));
    assert CloseAll(stack)[1..] == CloseAll(rest) && CloseAll(stack)[0] == Close(stack);
    if t.depth > 1 && |stack| > 1 {
      ClosingTells(After(t, CommitAction, 0), rest);
    }
  }

  lemma Prepended(t: Tracker, stack: seq<Frame>, s: Statement, next: seq<Statement>)
    requires Executes(stack, s) && Matched(stack, s) && MatchedFrom(Execute(stack, s), next)
    ensures MatchedFrom(stack, [s] + next)
    ensures NotifiesAsPublished(t, stack, [s] + next) ==>
      NotifiesAsPublished(After(t, ActionOf(s), RowsOf(s)), Execute(stack, s), next)
      && Notifies(t, ActionOf(s), RowsOf(s)) == Publishes(stack, s)
  {
    assert ([s] + next)[1..] == next;
  }

  /** Statements behind which a tracker that does not represent the stack shows. */
  lemma WrongTrackerShows(t: Tracker, stack: seq<Frame>) returns (next: seq<Statement>)
    requires Named(stack) && !Represents(t, stack)
    ensures MatchedFrom(stack, next) && !NotifiesAsPublished(t, stack, next)
  {
    if stack == [] && t.depth == 0 {
      var begun := Execute(stack, Begin);
      ClosingTells(After(t, BeginAction, 0), begun);
      Prepended(t, stack, Begin, CloseAll(begun));
      next := [Begin] + CloseAll(begun);
    } else if stack == [] || t.depth == 0 {
      Prepended(t, stack, Write(1), []);
      next := [Write(1)] + [];
    } else if t.depth == |stack| {
      ClosingTells(t, stack);
      next := CloseAll(stack);
    } else {
      var written := Execute(stack, Write(1));
      assert written[|written| - 1].wrote && written[|written| - 1] in written;
      ClosingTells(After(t, OtherAction, 1), written);
      Prepended(t, stack, Write(1), CloseAll(written));
      next := [Write(1)] + CloseAll(written);
    }
  }

  /**
   After any run, matched or not, the tracker represents the stack exactly if in every matched continuation each
   statement notifies exactly when it publishes writes. So a rollback to a savepoint, a commit over open savepoints and
   a release of an outer one, which leave it wrong, show sooner or later.
   */
  lemma TrackerIsRightIff(run: seq<Statement>)
    requires ExecutableRun(run)
    ensures var (t, stack) := (TrackerAfter(run), StackAfter(run));
      Represents(t, stack) <==> forall next :: MatchedFrom(stack, next) ==> NotifiesAsPublished(t, stack, next)
  {
    var (t, stack) := (TrackerAfter(run), StackAfter(run));
    if Represents(t, stack) {
      forall next | MatchedFrom(stack, next) ensures NotifiesAsPublished(t, stack, next) {
        RightTrackerStaysRight(t, stack, next);
      }
    } else {
      StacksAreNamed(run);
      var next := WrongTrackerShows(t, stack);
    }
  }

  /** A rollback to a savepoint makes the tracker forget the open transaction: its next write notifies too early. */
  lemma RollbackToLosesTransaction()
    ensures var run := [Begin, Savepoint("s"), RollbackTo("s")];
      ExecutableRun(run) && |StackAfter(run)| == 2
      && Notifies(TrackerAfter(run), ActionOf(Write(1)), 1) && !Publishes(StackAfter(run), Write(1))
  {
    var run := [Begin, Savepoint("s"), RollbackTo("s")];
    assert run[..2][..1][..0] == [];
    assert run[..2][..1] == [Begin];
    assert run[..2] == [Begin, Savepoint("s")];
    assert StackAfter(run[..2][..1]) == [Frame(None, false)];
    assert StackAfter(run[..2]) == [Frame(None, false), Frame(Some("s"), false)];
    assert StackAfter(run) == [Frame(None, false), Frame(Some("s"), false)];
  }
}
