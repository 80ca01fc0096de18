/**
 * The chat record kept by the interface (src/ChatMessage.tsx) and the two ways the
 * orchestration turns the conversation so far into completion-request messages
 * (src/logic.ts, in `generateQueries` and in `getResponse`).
 */
module Chat {
  import opened Text
  import Statements
  import Executor

  /** One entry of the conversation. `date` is the creation time (a clock reading, kept
      as an opaque number); `queries` and `queryResponses` default to empty, as in the
      constructor. */
  datatype ChatMessage = ChatMessage(
    date: int,
    message: string,
    isUser: bool,
    queries: seq<string> := [],
    queryResponses: Executor.QueryResponses := Executor.QueryResponses(map[], []))

  /** The author of a message of a chat-completion request. */
  datatype Role = System | User | Assistant

  /** The role as the request spells it. */
  function RoleName(role: Role): string
  {
    match role
    case System => "system"
    case User => "user"
    case Assistant => "assistant"
  }

  /** Distinct roles are spelled differently, so a `Role` stands for exactly one of the
      strings a request message may carry. */
  lemma RoleNamesDistinct(a: Role, b: Role)
    ensures RoleName(a) == RoleName(b) <==> a == b
  {
  }

  /** One message of a chat-completion request. */
  datatype ApiMessage = ApiMessage(role: Role, content: string)

  const HistoryWindow: nat := 3

  const OtherAgentPrefix: string := "Another ai agent responded (NOT YOU): "

  function RoleOf(m: ChatMessage): Role
  {
    if m.isUser then User else Assistant
  }

  /** `arr.slice(-k)` for a positive `k`: the last `k` elements, or all of them when there
      are fewer. */
  function SliceFromEnd<T>(s: seq<T>, k: nat): (r: seq<T>)
    requires k > 0
    ensures |r| == (if |s| < k then |s| else k)
    ensures forall i :: 0 <= i < |r| ==> r[i] == s[|s| - |r| + i]
  {
    s[(if |s| > k then |s| - k else 0)..]
  }

  /** `arr.map(f).slice(-k)` for a positive `k`: the last min(k, n) elements, each mapped by `f`,
      in order. `MapThenSlice` shows it is the slice of the mapped list. */
  function LastMapped<T, U>(s: seq<T>, f: T -> U, k: nat): (r: seq<U>)
    requires k > 0
    ensures |r| == (if |s| < k then |s| else k)
    ensures forall i :: 0 <= i < |r| ==> r[i] == f(s[|s| - |r| + i])
  {
    var lo := if |s| > k then |s| - k else 0;
    seq(|s| - lo, i requires 0 <= i < |s| - lo => f(s[lo + i]))
  }

  /** Mapping the last elements is slicing the mapped list. */
  lemma MapThenSlice<T, U>(s: seq<T>, f: T -> U, k: nat)
    requires k > 0
    ensures LastMapped(s, f, k) == SliceFromEnd(seq(|s|, i requires 0 <= i < |s| => f(s[i])), k)
  {
    var all := seq(|s|, i requires 0 <= i < |s| => f(s[i]));
    var r := SliceFromEnd(all, k);
    var m := LastMapped(s, f, k);
    assert |m| == |r|;
    forall i | 0 <= i < |r|
      ensures m[i] == r[i]
    {
      assert r[i] == all[|all| - |r| + i];
    }
  }

  /** How `generateQueries` shows an earlier message to the model: the user's own words; an
      assistant answer as the statements it ran, or, when it ran none, its text marked as
      coming from another agent. */
  function GenerationEntry(m: ChatMessage): (a: ApiMessage)
    ensures a.role == (if m.isUser then User else Assistant)
    ensures m.isUser ==> a.content == m.message
    ensures !m.isUser && m.queries != [] ==> a.content == Join(m.queries, " ")
    ensures !m.isUser && m.queries == [] ==> a.content == OtherAgentPrefix + m.message
  {
    ApiMessage(RoleOf(m),
      if m.isUser then m.message
      else if |m.queries| > 0 then Join(m.queries, " ")
      else OtherAgentPrefix + m.message)
  }

  /** How `getResponse` shows an earlier message: its text, whoever wrote it. */
  function ResponseEntry(m: ChatMessage): (a: ApiMessage)
    ensures a.role == (if m.isUser then User else Assistant)
    ensures a.content == m.message
  {
    ApiMessage(RoleOf(m), m.message)
  }

  /** `history.map(...).slice(-3)` in `generateQueries`: the last min(3, n) messages, each
      shown as `GenerationEntry` shows it, in conversation order. */
  function GenerationHistory(history: seq<ChatMessage>): (r: seq<ApiMessage>)
    ensures |r| == (if |history| < HistoryWindow then |history| else HistoryWindow)
    ensures forall i :: 0 <= i < |r| ==> r[i] == GenerationEntry(history[|history| - |r| + i])
  {
    LastMapped(history, GenerationEntry, HistoryWindow)
  }

  /** `history.map(...).slice(-3)` in `getResponse`: the last min(3, n) messages, verbatim. */
  function ResponseHistory(history: seq<ChatMessage>): (r: seq<ApiMessage>)
    ensures |r| == (if |history| < HistoryWindow then |history| else HistoryWindow)
    ensures forall i :: 0 <= i < |r| ==> r[i] == ResponseEntry(history[|history| - |r| + i])
  {
    LastMapped(history, ResponseEntry, HistoryWindow)
  }

  /** Only the last three messages matter: dropping older ones changes neither history. */
  lemma HistoryForgetsOlder(older: seq<ChatMessage>, recent: seq<ChatMessage>)
    requires |recent| >= HistoryWindow
    ensures GenerationHistory(older + recent) == GenerationHistory(recent)
    ensures ResponseHistory(older + recent) == ResponseHistory(recent)
  {
    LastMappedForgets(older, recent, GenerationEntry, HistoryWindow);
    LastMappedForgets(older, recent, ResponseEntry, HistoryWindow);
  }

  /** Elements before the last `k` do not affect the mapped window. */
  lemma LastMappedForgets<T, U>(older: seq<T>, recent: seq<T>, f: T -> U, k: nat)
    requires k > 0 && |recent| >= k
    ensures LastMapped(older + recent, f, k) == LastMapped(recent, f, k)
  {
    var all := older + recent;
    var a := LastMapped(all, f, k);
    var b := LastMapped(recent, f, k);
    forall i | 0 <= i < k
      ensures a[i] == b[i]
    {
      assert all[|all| - k + i] == recent[|recent| - k + i];
    }
  }

  /** An assistant answer that ran statements produced by the splitter is shown to the next
      generation as text that the splitter turns back into exactly those statements. */
  lemma AnswerQueriesRoundTrip(m: ChatMessage)
    requires !m.isUser && m.queries != []
    requires forall q <- m.queries :: Statements.IsStatement(q)
    ensures Statements.ParseStatements(GenerationEntry(m).content) == m.queries
  {
    Statements.ParseJoined(m.queries, " ");
  }
}
