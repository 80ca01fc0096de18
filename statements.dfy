/**
 * The completion-text splitter shared by `generateQueries` and `fixQueries`
 * (src/logic.ts:78-82 and 110-114): the raw completion is split on `;`, each
 * piece has its newlines turned into spaces and is trimmed, empty pieces are
 * dropped, and `;` is appended to every piece that is left.
 */
module Statements {
  import opened Text

  /** What the splitter emits: a non-empty, trimmed text free of `;` and of newlines,
      followed by exactly one `;`. */
  predicate IsStatement(s: string)
  {
    && |s| >= 2
    && s[|s| - 1] == ';'
    && ';' !in s[..|s| - 1]
    && '\n' !in s[..|s| - 1]
    && IsTrimmed(s[..|s| - 1])
  }

  /** The text of one piece as the splitter keeps it (empty when the piece is dropped). */
  function CleanPiece(piece: string): (t: string)
    ensures '\n' !in t && IsTrimmed(t)
    ensures ';' !in piece ==> ';' !in t
  {
    var r := ReplaceNewlines(piece);
    assert ';' !in piece ==> ';' !in r by {
      if ';' in r {
        var k :| 0 <= k < |r| && r[k] == ';';
        assert piece[k] == ';';
      }
    }
    TrimKeeps(r, '\n');
    assert ';' !in r ==> ';' !in Trim(r) by {
      if ';' !in r { TrimKeeps(r, ';'); }
    }
    Trim(r)
  }

  /** The `.map(...).filter(...).map(...)` chain over the pieces. */
  function Clean(pieces: seq<string>): seq<string>
  {
    if pieces == [] then []
    else
      var t := CleanPiece(pieces[0]);
      var rest := Clean(pieces[1..]);
      if t == [] then rest else [t + ";"] + rest
  }

  /** Pieces free of `;` clean to at most one statement each, every one well formed (a
      non-empty trimmed text free of `;` and of newlines, then one `;`). */
  lemma {:induction false} CleanWellFormed(pieces: seq<string>)
    requires forall p <- pieces :: ';' !in p
    ensures |Clean(pieces)| <= |pieces|
    ensures forall s <- Clean(pieces) :: IsStatement(s)
  {
    CleanShorter(pieces);
    if pieces != [] {
      assert pieces[0] in pieces;
      NoSemicolonTail(pieces);
      CleanWellFormed(pieces[1..]);
      CleanStatementsStep(pieces);
    }
  }

  /** The first piece adds at most one well-formed statement in front of the rest's. */
  lemma CleanStatementsStep(pieces: seq<string>)
    requires pieces != [] && ';' !in pieces[0]
    requires forall s <- Clean(pieces[1..]) :: IsStatement(s)
    ensures forall s <- Clean(pieces) :: IsStatement(s)
  {
    var t := CleanPiece(pieces[0]);
    if t != [] {
      TextIsStatement(t);
      StatementsCons(t + ";", Clean(pieces[1..]));
    }
  }

  lemma NoSemicolonTail(pieces: seq<string>)
    requires pieces != [] && forall p <- pieces :: ';' !in p
    ensures forall p <- pieces[1..] :: ';' !in p
  {
    assert forall p <- pieces[1..] :: p in pieces;
  }

  /** Each piece yields at most one statement. */
  lemma {:induction false} CleanShorter(pieces: seq<string>)
    ensures |Clean(pieces)| <= |pieces|
  {
    if pieces != [] {
      CleanShorter(pieces[1..]);
    }
  }

  lemma StatementsCons(s: string, rest: seq<string>)
    requires IsStatement(s) && forall r <- rest :: IsStatement(r)
    ensures forall x <- [s] + rest :: IsStatement(x)
  {
  }

  /** A non-empty trimmed text free of `;` and of newlines becomes a statement with one `;`. */
  lemma TextIsStatement(t: string)
    requires t != [] && ';' !in t && '\n' !in t && IsTrimmed(t)
    ensures IsStatement(t + ";")
  {
    assert (t + ";")[..|t|] == t;
  }

  /** Parses a completion into SQL statements. Every statement it returns is well formed,
      and there are never more of them than there are pieces between the `;`s. */
  function ParseStatements(completion: string): (r: seq<string>)
    ensures forall s <- r :: IsStatement(s)
    ensures |r| <= Count(completion, ';') + 1
  {
    CleanWellFormed(Split(completion, ';'));
    Clean(Split(completion, ';'))
  }

  lemma ReplaceNewlinesWhitespace(u: string)
    requires AllWhitespace(u)
    ensures AllWhitespace(ReplaceNewlines(u))
  {
  }

  lemma JoinFirst(stmts: seq<string>, w: string)
    requires stmts != []
    ensures Join(stmts, w) == stmts[0] + (if |stmts| == 1 then "" else w + Join(stmts[1..], w))
  {
  }

  lemma CleanFirst(p: string, rest: seq<string>)
    ensures Clean([p] + rest) == (if CleanPiece(p) == [] then [] else [CleanPiece(p) + ";"]) + Clean(rest)
  {
    assert ([p] + rest)[0] == p && ([p] + rest)[1..] == rest;
  }

  /** Whitespace in front of a statement's text is cleaned away. */
  lemma CleanPadded(u: string, b: string)
    requires AllWhitespace(u)
    requires b != [] && IsTrimmed(b) && '\n' !in b
    ensures CleanPiece(u + b) == b
  {
    assert ReplaceNewlines(u + b) == ReplaceNewlines(u) + b;
    ReplaceNewlinesWhitespace(u);
    TrimLeftPadded(ReplaceNewlines(u), b);
  }

  /** The text of a statement, behind whitespace, is cleaned back to itself. */
  lemma CleanStatementPadded(u: string, s: string)
    requires AllWhitespace(u) && IsStatement(s)
    ensures CleanPiece(u + s[..|s| - 1]) == s[..|s| - 1]
  {
    CleanPadded(u, s[..|s| - 1]);
  }

  /** Splitting a join of statements peels off the text of the first one, with any whitespace
      in front of it. */
  lemma SplitFirst(u: string, stmts: seq<string>, w: string)
    requires ';' !in u
    requires stmts != [] && IsStatement(stmts[0])
    ensures var s0 := stmts[0];
      Split(u + Join(stmts, w), ';')
      == [u + s0[..|s0| - 1]] + Split(if |stmts| == 1 then "" else w + Join(stmts[1..], w), ';')
  {
    var s0 := stmts[0];
    var b0 := s0[..|s0| - 1];
    assert s0 == b0 + [';'];
    var x := if |stmts| == 1 then "" else w + Join(stmts[1..], w);
    JoinFirst(stmts, w);
    assert u + Join(stmts, w) == (u + b0) + [';'] + x;
    SplitAfterPiece(u + b0, x, ';');
  }

  lemma TextThenSemicolon(s: string)
    requires s != [] && s[|s| - 1] == ';'
    ensures s[..|s| - 1] + ";" == s
  {
  }

  lemma HeadAndTail(stmts: seq<string>)
    requires stmts != []
    ensures stmts == [stmts[0]] + stmts[1..]
  {
  }

  /** A whitespace-prefixed statement text in front of other pieces cleans to the statement. */
  lemma CleanCons(u: string, s: string, rest: seq<string>)
    requires AllWhitespace(u) && IsStatement(s)
    ensures Clean([u + s[..|s| - 1]] + rest) == [s] + Clean(rest)
  {
    var b := s[..|s| - 1];
    CleanFirst(u + b, rest);
    CleanStatementPadded(u, s);
    TextThenSemicolon(s);
  }

  /** Only whitespace cleans to nothing. */
  lemma CleanBlank(u: string)
    requires AllWhitespace(u) && ';' !in u
    ensures Clean(Split(u, ';')) == []
  {
    ReplaceNewlinesWhitespace(u);
    TrimStartAt(ReplaceNewlines(u), |u|);
    assert Split(u, ';') == [u];
  }

  /** The splitter recovers a list of statements joined with any whitespace separator,
      even after more whitespace in front of the first. */
  lemma {:induction false} CleanSplitJoin(u: string, stmts: seq<string>, w: string)
    requires AllWhitespace(u) && ';' !in u
    requires AllWhitespace(w) && ';' !in w
    requires forall s <- stmts :: IsStatement(s)
    ensures Clean(Split(u + Join(stmts, w), ';')) == stmts
    decreases |stmts|
  {
    if stmts == [] {
      assert u + Join(stmts, w) == u;
      CleanBlank(u);
    } else if |stmts| == 1 {
      assert stmts[0] in stmts;
      CleanSplitJoinOne(u, stmts, w);
    } else {
      assert stmts[0] in stmts;
      StatementsTail(stmts);
      CleanSplitJoin(w, stmts[1..], w);
      CleanSplitJoinCons(u, stmts, w);
    }
  }

  /** The base case of `CleanSplitJoin`: one statement behind whitespace. */
  lemma CleanSplitJoinOne(u: string, stmts: seq<string>, w: string)
    requires AllWhitespace(u) && ';' !in u
    requires |stmts| == 1 && IsStatement(stmts[0])
    ensures Clean(Split(u + Join(stmts, w), ';')) == stmts
  {
    var s0 := stmts[0];
    SplitFirst(u, stmts, w);
    CleanBlank("");
    CleanCons(u, s0, Split("", ';'));
    assert [s0] + [] == stmts;
  }

  /** The step of `CleanSplitJoin`: the first statement, then the rest as they parse back. */
  lemma CleanSplitJoinCons(u: string, stmts: seq<string>, w: string)
    requires AllWhitespace(u) && ';' !in u
    requires |stmts| > 1 && IsStatement(stmts[0])
    requires Clean(Split(w + Join(stmts[1..], w), ';')) == stmts[1..]
    ensures Clean(Split(u + Join(stmts, w), ';')) == stmts
  {
    SplitFirst(u, stmts, w);
    CleanPieces(u, stmts, Split(w + Join(stmts[1..], w), ';'), Split(u + Join(stmts, w), ';'));
  }

  /** The step of `CleanSplitJoin` on the pieces alone: the first statement's text behind
      whitespace, then pieces that clean to the other statements. */
  lemma CleanPieces(u: string, stmts: seq<string>, tail: seq<string>, pieces: seq<string>)
    requires AllWhitespace(u) && stmts != [] && IsStatement(stmts[0])
    requires pieces == [u + stmts[0][..|stmts[0]| - 1]] + tail
    requires Clean(tail) == stmts[1..]
    ensures Clean(pieces) == stmts
  {
    CleanCons(u, stmts[0], tail);
    HeadAndTail(stmts);
  }

  /** The tail of a list of statements is a list of statements. */
  lemma StatementsTail(stmts: seq<string>)
    requires stmts != [] && forall s <- stmts :: IsStatement(s)
    ensures forall s <- stmts[1..] :: IsStatement(s)
  {
    assert forall s <- stmts[1..] :: s in stmts;
  }

  /** Statements joined with a whitespace separator parse back to themselves. This covers the
      plain concatenation (empty separator) and the `queries.join(" ")` of the history. */
  lemma ParseJoined(stmts: seq<string>, w: string)
    requires AllWhitespace(w) && ';' !in w
    requires forall s <- stmts :: IsStatement(s)
    ensures ParseStatements(Join(stmts, w)) == stmts
  {
    CleanSplitJoin("", stmts, w);
    assert "" + Join(stmts, w) == Join(stmts, w);
  }

  /** Re-parsing the concatenation of the parser's own output gives the same list. */
  lemma ParseIdempotent(completion: string)
    ensures ParseStatements(Join(ParseStatements(completion), "")) == ParseStatements(completion)
  {
    ParseJoined(ParseStatements(completion), "");
  }
}
