/** Splitting a migration file into statements: a one-pass scanner against a token-level lexer. */
module Migrate {
  import opened Text

  // ----- Reference lexer -----

  /** How many characters there are up to and including the first `stop`; all of them without one. */
  function Through(stop: char, s: string): (n: nat)
    ensures n <= |s| && (s != "" ==> n > 0)
    ensures forall i :: 0 <= i < n - 1 ==> s[i] != stop
    ensures n < |s| ==> s[n - 1] == stop
  {
    if s == "" then 0
    else if s[0] == stop then 1
    else 1 + Through(stop, s[1..])
  }

  predicate StartsComment(s: string) {
    |s| > 1 && s[0] == '-' && s[1] == '-'
  }

  /** A token is a line comment, a quoted string, or a single character. */
  function TokenLength(s: string): (n: nat)
    requires s != ""
    ensures 0 < n <= |s|
  {
    if StartsComment(s) then Through('\n', s)
    else if s[0] == '\'' then 1 + Through('\'', s[1..])
    else 1
  }

  function Tokens(s: string): seq<string> {
    if s == "" then []
    else
      var n := TokenLength(s);
      [s[..n]] + Tokens(s[n..])
  }

  /** Put text in front of the first piece. */
  function Glue(text: string, pieces: seq<string>): (glued: seq<string>)
    requires pieces != []
    ensures |glued| == |pieces| && glued[0] == text + pieces[0]
  {
    [text + pieces[0]] + pieces[1..]
  }

  /** What lies between the semicolon tokens; the last piece is the text after the last of them. */
  function Pieces(tokens: seq<string>): (pieces: seq<string>)
    ensures pieces != []
  {
    if tokens == [] then [""]
    else if tokens[0] == ";" then [""] + Pieces(tokens[1..])
    else Glue(tokens[0], Pieces(tokens[1..]))
  }

  function PiecesOf(sql: string): (pieces: seq<string>)
    ensures pieces != []
  {
    Pieces(Tokens(sql))
  }

  function NonBlank(tail: string): seq<string> {
    if Trim(tail) != "" then [Trim(tail)] else []
  }

  /** The statements of a file: every piece as it stands, but the tail trimmed, and only if anything is left. */
  function Statements(sql: string): seq<string> {
    var pieces := PiecesOf(sql);
    pieces[..|pieces| - 1] + NonBlank(pieces[|pieces| - 1])
  }

  // ----- What cuts and what does not -----

  lemma ThroughFirst(stop: char, before: string, after: string)
    requires stop !in before
    ensures Through(stop, before + [stop] + after) == |before| + 1
    ensures Through(stop, before) == |before|
  {
    var s := before + [stop] + after;
    assert s[|before|] == stop;
    assert forall i :: 0 <= i < |before| ==> s[i] == before[i];
  }

  lemma FirstTokenSplits(token: string, rest: string)
    requires token != "" && TokenLength(token + rest) == |token|
    ensures PiecesOf(token + rest)
         == if token == ";" then [""] + PiecesOf(rest) else [token + PiecesOf(rest)[0]] + PiecesOf(rest)[1..]
  {
    hide TokenLength;
    assert (token + rest)[..|token|] == token && (token + rest)[|token|..] == rest;
    assert Tokens(token + rest) == [token] + Tokens(rest);
  }

  /** A semicolon ends a piece, but not in a quoted string or a line comment, and no other character does. */
  lemma QuotedStringIsWhole(q: string, rest: string)
    requires '\'' !in q
    ensures PiecesOf("'" + q + "'" + rest) == ["'" + q + "'" + PiecesOf(rest)[0]] + PiecesOf(rest)[1..]
  {
    hide PiecesOf;
    var token := "'" + q + "'";
    assert (token + rest)[1..] == q + ['\''] + rest;
    ThroughFirst('\'', q, rest);
    FirstTokenSplits(token, rest);
  }

  lemma LineCommentIsWhole(c: string, rest: string)
    requires '\n' !in c
    ensures PiecesOf("--" + c + "\n" + rest) == ["--" + c + "\n" + PiecesOf(rest)[0]] + PiecesOf(rest)[1..]
  {
    hide PiecesOf;
    var token := "--" + c + "\n";
    assert token + rest == "--" + c + ['\n'] + rest;
    ThroughFirst('\n', "--" + c, rest);
    FirstTokenSplits(token, rest);
  }

  lemma SemicolonCuts(rest: string)
    ensures PiecesOf(";" + rest) == [""] + PiecesOf(rest)
  {
    hide PiecesOf;
    FirstTokenSplits(";", rest);
  }

  lemma OtherCharacterDoesNotCut(ch: char, rest: string)
    requires ch != ';' && ch != '\'' && !(ch == '-' && rest != "" && rest[0] == '-')
    ensures PiecesOf([ch] + rest) == [[ch] + PiecesOf(rest)[0]] + PiecesOf(rest)[1..]
  {
    hide PiecesOf;
    assert [ch] != ";";
    FirstTokenSplits([ch], rest);
  }

  /** What is left open is one piece to the end of the file. */
  lemma OpenTokenIsWhole(inner: string)
    ensures PiecesOf("") == [""]
    ensures '\'' !in inner ==> PiecesOf("'" + inner) == ["'" + inner]
    ensures '\n' !in inner ==> PiecesOf("--" + inner) == ["--" + inner]
  {
    hide PiecesOf;
    NothingIsOnePiece();
    if '\'' !in inner {
      ThroughFirst('\'', inner, "");
      assert ("'" + inner)[1..] == inner && "'" + inner + "" == "'" + inner;
      FirstTokenSplits("'" + inner, "");
    }
    if '\n' !in inner {
      ThroughFirst('\n', "--" + inner, "");
      assert "--" + inner + "" == "--" + inner;
      FirstTokenSplits("--" + inner, "");
    }
  }

  lemma NothingIsOnePiece()
    ensures PiecesOf("") == [""]
  {
  }

  // ----- The scanner -----

  datatype Mode = Plain | InString | InLineComment

  /** The pieces of what is left to read, when the scanner is in the middle of a token. */
  function PiecesFrom(mode: Mode, rest: string): (pieces: seq<string>)
    ensures pieces != []
  {
    match mode
    case Plain => PiecesOf(rest)
    case InString => RunTo('\'', rest)
    case InLineComment => RunTo('\n', rest)
  }

  lemma GlueTwice(x: string, y: string, pieces: seq<string>)
    requires pieces != []
    ensures Glue(x, Glue(y, pieces)) == Glue(x + y, pieces)
  {
    assert x + (y + pieces[0]) == x + y + pieces[0];
  }

  lemma GlueNothing(pieces: seq<string>)
    requires pieces != []
    ensures Glue("", pieces) == pieces
  {
    assert "" + pieces[0] == pieces[0];
  }

  function RunTo(stop: char, rest: string): (pieces: seq<string>)
    ensures pieces != []
  {
    var n := Through(stop, rest);
    Glue(rest[..n], PiecesOf(rest[n..]))
  }

  /** Inside a token that runs to `stop`, one more character belongs to the piece. */
  lemma InsideToken(stop: char, rest: string)
    requires rest != ""
    ensures rest[0] == stop ==> RunTo(stop, rest) == Glue(rest[..1], PiecesOf(rest[1..]))
    ensures rest[0] != stop ==> RunTo(stop, rest) == Glue(rest[..1], RunTo(stop, rest[1..]))
  {
    var n, m := Through(stop, rest), Through(stop, rest[1..]);
    if rest[0] != stop {
      assert rest[..n] == rest[..1] + rest[1..][..m];
      assert rest[n..] == rest[1..][m..];
      GlueTwice(rest[..1], rest[1..][..m], PiecesOf(rest[n..]));
    }
  }

  predicate Cuts(mode: Mode, rest: string)
    requires rest != ""
  {
    mode == Plain && rest[0] == ';'
  }

  function NextMode(mode: Mode, rest: string): Mode
    requires rest != ""
  {
    match mode
    case InLineComment => if rest[0] == '\n' then Plain else InLineComment
    case InString => if rest[0] == '\'' then Plain else InString
    case Plain => if StartsComment(rest) then InLineComment else if rest[0] == '\'' then InString else Plain
  }

  /** What one character does to the pieces still to come. */
  lemma OneCharacter(mode: Mode, rest: string)
    requires rest != ""
    ensures Cuts(mode, rest) ==> PiecesFrom(mode, rest) == [""] + PiecesFrom(Plain, rest[1..])
    ensures var next := PiecesFrom(NextMode(mode, rest), rest[1..]);
            Cuts(mode, rest) || PiecesFrom(mode, rest) == Glue(rest[..1], next)
  {
    match mode
    case InLineComment => InsideToken('\n', rest);
    case InString => InsideToken('\'', rest);
    case Plain =>
      if StartsComment(rest) {
        InsideToken('\n', rest);
        CommentOpens(rest);
      } else if rest[0] == '\'' {
        QuoteOpens(rest);
      }
  }

  lemma CommentOpens(rest: string)
    requires StartsComment(rest)
    ensures PiecesOf(rest) == RunTo('\n', rest)
  {
  }

  lemma QuoteOpens(rest: string)
    requires rest != "" && rest[0] == '\''
    ensures PiecesOf(rest) == Glue(rest[..1], PiecesFrom(InString, rest[1..]))
  {
    var m := Through('\'', rest[1..]);
    assert rest[..1 + m] == rest[..1] + rest[1..][..m];
    assert rest[1 + m..] == rest[1..][m..];
    assert PiecesOf(rest) == Glue(rest[..1 + m], PiecesOf(rest[1 + m..]));
    GlueTwice(rest[..1], rest[1..][..m], PiecesOf(rest[1 + m..]));
  }

  function ModeOf(inString: bool, inLineComment: bool): Mode {
    if inLineComment then InLineComment else if inString then InString else Plain
  }

  method SplitStatements(sql: string) returns (stmts: seq<string>)
    ensures stmts == Statements(sql)
    ensures var pieces := PiecesOf(sql);
            var tail := Trim(pieces[|pieces| - 1]);
            stmts == pieces[..|pieces| - 1] + if tail == "" then [] else [tail]
  {
    hide PiecesFrom, PiecesOf, Glue;
    stmts := [];
    var cur := "";
    var inString, inLineComment := false, false;
    Starts(sql);
    for i := 0 to |sql|
      invariant !(inString && inLineComment)
      invariant stmts + Glue(cur, PiecesFrom(ModeOf(inString, inLineComment), sql[i..])) == PiecesOf(sql)
    {
      var ch := sql[i];
      ghost var rest := sql[i..];
      assert rest[1..] == sql[i + 1..] && rest[..1] == [ch];
      OneCharacter(ModeOf(inString, inLineComment), rest);
      Accumulate(stmts, cur, rest);

      if inLineComment {
        if ch == '\n' {
          inLineComment := false;
        }
        cur := cur + [ch];
        continue;
      }
      if !inString && i + 1 < |sql| && ch == '-' && sql[i + 1] == '-' {
        inLineComment := true;
        cur := cur + [ch];
        continue;
      }
      if ch == '\'' {
        inString := !inString;
      }
      if !inString && ch == ';' {
        stmts := stmts + [cur];
        cur := "";
        continue;
      }
      cur := cur + [ch];
    }
    Ends(stmts, cur, ModeOf(inString, inLineComment), sql);
    var s := Trim(cur);
    if s != "" {
      stmts := stmts + [s];
    }
  }

  lemma Starts(sql: string)
    ensures [] + Glue("", PiecesFrom(Plain, sql[0..])) == PiecesOf(sql)
  {
    assert sql[0..] == sql;
    GlueNothing(PiecesOf(sql));
  }

  /** Moving a character, or a semicolon, from the unread text to the piece being built. */
  lemma Accumulate(stmts: seq<string>, cur: string, rest: string)
    requires rest != ""
    ensures forall mode :: stmts + Glue(cur, Glue(rest[..1], PiecesFrom(mode, rest[1..])))
                        == stmts + Glue(cur + rest[..1], PiecesFrom(mode, rest[1..]))
    ensures stmts + Glue(cur, [""] + PiecesFrom(Plain, rest[1..]))
         == stmts + [cur] + Glue("", PiecesFrom(Plain, rest[1..]))
  {
    hide PiecesFrom;
    forall mode ensures Glue(cur, Glue(rest[..1], PiecesFrom(mode, rest[1..])))
                     == Glue(cur + rest[..1], PiecesFrom(mode, rest[1..])) {
      GlueTwice(cur, rest[..1], PiecesFrom(mode, rest[1..]));
    }
    var later := PiecesFrom(Plain, rest[1..]);
    GlueNothing(later);
    assert cur + "" == cur;
    assert Glue(cur, [""] + later) == [cur] + later;
  }

  lemma Ends(stmts: seq<string>, cur: string, mode: Mode, sql: string)
    requires stmts + Glue(cur, PiecesFrom(mode, sql[|sql|..])) == PiecesOf(sql)
    ensures PiecesOf(sql) == stmts + [cur]
  {
    assert sql[|sql|..] == "";
    assert PiecesFrom(mode, "") == [""];
    assert cur + "" == cur;
  }

  // ----- Nothing is lost -----

  /** Every statement followed by its semicolon. */
  function Terminated(stmts: seq<string>): string {
    if stmts == [] then "" else stmts[0] + ";" + Terminated(stmts[1..])
  }

  /** The raw pieces with their semicolons, and the untrimmed tail, give the file back. */
  lemma {:induction false} RejoiningRestores(sql: string)
    ensures var pieces := PiecesOf(sql); var n := |pieces| - 1;
            Terminated(pieces[..n]) + pieces[n] == sql
    decreases |sql|
  {
    if sql != "" {
      hide PiecesOf, TokenLength, Glue, Terminated;
      var k := TokenLength(sql);
      var later := PiecesOf(sql[k..]);
      RejoiningRestores(sql[k..]);
      FirstToken(sql);
      assert sql == sql[..k] + sql[k..];
      if sql[..k] == ";" {
        CutTerminated(later);
      } else {
        GlueTerminated(sql[..k], later);
      }
    }
  }

  lemma FirstToken(sql: string)
    requires sql != ""
    ensures var k := TokenLength(sql); var later := PiecesOf(sql[k..]);
            PiecesOf(sql) == if sql[..k] == ";" then [""] + later else Glue(sql[..k], later)
  {
  }

  lemma CutTerminated(pieces: seq<string>)
    requires pieces != []
    ensures var n := |pieces| - 1; var more := [""] + pieces;
            Terminated(more[..n + 1]) + more[n + 1] == ";" + (Terminated(pieces[..n]) + pieces[n])
  {
    var n, more := |pieces| - 1, [""] + pieces;
    assert more[..n + 1][1..] == pieces[..n];
    assert more[..n + 1][0] == "";
    assert "" + ";" == ";";
  }

  lemma GlueTerminated(text: string, pieces: seq<string>)
    requires pieces != []
    ensures var n := |pieces| - 1; var glued := Glue(text, pieces);
            Terminated(glued[..n]) + glued[n] == text + (Terminated(pieces[..n]) + pieces[n])
  {
    var n, glued := |pieces| - 1, Glue(text, pieces);
    if n > 0 {
      assert glued[..n][1..] == pieces[..n][1..];
      assert glued[..n][0] == text + pieces[0];
      var later := Terminated(pieces[..n][1..]);
      assert Terminated(glued[..n]) == text + pieces[0] + ";" + later;
      assert Terminated(pieces[..n]) == pieces[0] + ";" + later;
    } else {
      assert glued[..0] == [] && pieces[..0] == [];
    }
  }

  // ----- Splitting again -----

  /** A string that stops inside the first piece of `s` is lexed like the beginning of `s`, so nothing cuts it. */
  lemma {:induction false} BeginningIsUncut(s: string, u: string)
    requires u <= s && u <= PiecesOf(s)[0]
    ensures PiecesOf(u) == [u]
    decreases |s|
  {
    if u != "" {
      var n := TokenLength(s);
      assert s[..n] != ";";
      var later := PiecesOf(s[n..]);
      assert PiecesOf(s) == Glue(s[..n], later);
      if |u| < n {
        ShortTokenIsWhole(s, u);
      } else {
        SameToken(s, u);
        assert u[..n] == s[..n];
        assert u[n..] <= s[n..];
        assert u[n..] <= later[0] by {
          assert PiecesOf(s)[0][n..] == later[0];
        }
        BeginningIsUncut(s[n..], u[n..]);
        assert u == u[..n] + u[n..];
        assert PiecesOf(u) == Glue(u[..n], [u[n..]]);
      }
    }
  }

  lemma {:induction false} ThroughPrefix(stop: char, s: string, u: string)
    requires u <= s
    ensures Through(stop, u) == if |u| < Through(stop, s) then |u| else Through(stop, s)
    decreases |u|
  {
    if u != "" && s[0] != stop {
      assert u[1..] <= s[1..];
      ThroughPrefix(stop, s[1..], u[1..]);
    }
  }

  /** The first token of a prefix that contains it is the first token of the whole. */
  lemma SameToken(s: string, u: string)
    requires u <= s && u != "" && TokenLength(s) <= |u|
    ensures TokenLength(u) == TokenLength(s)
  {
    ThroughPrefix('\n', s, u);
    assert u[1..] <= s[1..];
    ThroughPrefix('\'', s[1..], u[1..]);
  }

  /** A prefix that breaks off inside the first token is a single uncut piece. */
  lemma ShortTokenIsWhole(s: string, u: string)
    requires u <= s && u != "" && |u| < TokenLength(s)
    ensures PiecesOf(u) == [u]
  {
    ThroughPrefix('\n', s, u);
    assert u[1..] <= s[1..];
    ThroughPrefix('\'', s[1..], u[1..]);
    assert TokenLength(u) == |u|;
    assert u[..|u|] == u && u[|u|..] == "";
    assert Tokens(u) == [u];
    assert u != ";";
    assert Pieces([u]) == Glue(u, [""]);
    assert u + "" == u;
  }

  /** Every piece is lexed on its own the way it was inside the file. */
  lemma {:induction false} PieceIsUncut(sql: string, j: nat)
    requires j < |PiecesOf(sql)|
    ensures PiecesOf(PiecesOf(sql)[j]) == [PiecesOf(sql)[j]]
    decreases |sql|
  {
    if j == 0 {
      FirstPieceIsPrefix(sql);
      BeginningIsUncut(sql, PiecesOf(sql)[0]);
    } else {
      var n := TokenLength(sql);
      var later := PiecesOf(sql[n..]);
      if sql[..n] == ";" {
        assert PiecesOf(sql) == [""] + later;
        PieceIsUncut(sql[n..], j - 1);
      } else {
        assert PiecesOf(sql) == Glue(sql[..n], later);
        PieceIsUncut(sql[n..], j);
      }
    }
  }

  lemma {:induction false} FirstPieceIsPrefix(sql: string)
    ensures PiecesOf(sql)[0] <= sql
    decreases |sql|
  {
    if sql != "" {
      var n := TokenLength(sql);
      FirstPieceIsPrefix(sql[n..]);
      assert sql == sql[..n] + sql[n..];
    }
  }

  lemma {:induction false} TrimLeftIsUncut(p: string)
    requires PiecesOf(p) == [p]
    ensures PiecesOf(TrimLeft(p)) == [TrimLeft(p)]
    decreases |p|
  {
    if p != "" && IsSpace(p[0]) {
      assert PiecesOf(p) == Glue(p[..1], PiecesOf(p[1..]));
      assert p == p[..1] + p[1..];
      assert PiecesOf(p[1..]) == [p[1..]] by {
        assert p[1..] == PiecesOf(p[1..])[0] by {
          assert p[..1] + PiecesOf(p[1..])[0] == p;
        }
      }
      TrimLeftIsUncut(p[1..]);
    }
  }

  lemma TrimIsUncut(p: string)
    requires PiecesOf(p) == [p]
    ensures PiecesOf(Trim(p)) == [Trim(p)]
  {
    TrimLeftIsUncut(p);
    BeginningIsUncut(TrimLeft(p), Trim(p));
  }

  lemma UncutStatements(p: string)
    requires PiecesOf(p) == [p]
    ensures Statements(p) == NonBlank(p)
  {
  }

  /** The tail is emitted trimmed, so splitting it again gives it back as it is. */
  lemma TailSplitsToItself(sql: string, stmt: string)
    requires var pieces := PiecesOf(sql); stmt in NonBlank(pieces[|pieces| - 1])
    ensures Statements(stmt) == [stmt]
  {
    var pieces := PiecesOf(sql);
    var n := |pieces| - 1;
    PieceIsUncut(sql, n);
    TrimIsUncut(pieces[n]);
    TrimIsIdempotent(pieces[n]);
    UncutStatements(stmt);
  }

  /** Splitting any emitted statement again yields just that statement, trimmed, or nothing when it is blank. */
  lemma SplittingAgain(sql: string, stmt: string)
    requires stmt in Statements(sql)
    ensures Statements(stmt) == NonBlank(stmt)
  {
    var pieces := PiecesOf(sql);
    var n := |pieces| - 1;
    if stmt in pieces[..n] {
      var j :| 0 <= j < n && pieces[j] == stmt;
      PieceIsUncut(sql, j);
    } else {
      PieceIsUncut(sql, n);
      TrimIsUncut(pieces[n]);
    }
    UncutStatements(stmt);
  }

  // ----- Joining and splitting -----

  /** A statement that a semicolon really ends: it neither contains a cut nor leaves a comment or string open. */
  ghost predicate Closed(stmt: string) {
    PiecesOf(stmt + ";") == [stmt, ""]
  }

  /** A file written as closed statements, each followed by a semicolon, splits into exactly those statements. */
  lemma {:induction false} SplittingInvertsJoining(stmts: seq<string>)
    requires forall i :: 0 <= i < |stmts| ==> Closed(stmts[i])
    ensures Statements(Terminated(stmts)) == stmts
  {
    PiecesOfTerminated(stmts);
  }

  lemma {:induction false} PiecesOfTerminated(stmts: seq<string>)
    requires forall i :: 0 <= i < |stmts| ==> Closed(stmts[i])
    ensures PiecesOf(Terminated(stmts)) == stmts + [""]
  {
    if stmts != [] {
      PiecesOfTerminated(stmts[1..]);
      CutAfterClosed(stmts[0], Terminated(stmts[1..]));
      assert [stmts[0]] + (stmts[1..] + [""]) == stmts + [""];
    }
  }

  lemma {:induction false} CutAfterClosed(stmt: string, rest: string)
    requires Closed(stmt)
    ensures PiecesOf(stmt + ";" + rest) == [stmt] + PiecesOf(rest)
    decreases |stmt|
  {
    var short, long := stmt + ";", stmt + ";" + rest;
    if stmt == "" {
      assert long[..1] == ";" && long[1..] == rest;
    } else {
      var n := TokenLength(short);
      TokenOfClosed(stmt);
      assert long[..|short|] == short;
      SameTokenInLonger(long, short);
      assert short[n..] == stmt[n..] + ";" && long[n..] == stmt[n..] + ";" + rest;
      assert long[..n] == stmt[..n];
      CutAfterClosed(stmt[n..], rest);
      assert stmt == stmt[..n] + stmt[n..];
    }
  }

  lemma NothingAfterTheEnd(s: string)
    ensures PiecesOf(s[|s|..]) == [""]
  {
  }

  /** The first token of a closed statement ends before the semicolon, and what follows it is closed again. */
  lemma TokenOfClosed(stmt: string)
    requires Closed(stmt) && stmt != ""
    ensures var n := TokenLength(stmt + ";"); n <= |stmt| && (stmt + ";")[..n] != ";" && Closed(stmt[n..])
  {
    var short := stmt + ";";
    var n := TokenLength(short);
    var later := PiecesOf(short[n..]);
    assert PiecesOf(short)[0] == stmt;
    assert short[..n] != ";";
    assert PiecesOf(short) == Glue(short[..n], later);
    assert |later| == 2 && Glue(short[..n], later)[1] == later[1];
    NothingAfterTheEnd(short);
    assert n != |short|;
    assert short[n..] == stmt[n..] + ";";
    assert short[..n] + later[0] == stmt == short[..n] + stmt[n..];
    assert later[0] == stmt[n..];
  }

  /** A token that is complete before the end of a string is the same token in any longer string. */
  lemma SameTokenInLonger(long: string, short: string)
    requires short <= long && short != "" && TokenLength(short) < |short|
    ensures TokenLength(long) == TokenLength(short)
  {
    ThroughPrefix('\n', long, short);
    assert short[1..] <= long[1..];
    ThroughPrefix('\'', long[1..], short[1..]);
  }

  /** An open line comment swallows the semicolon that should end it, so closedness cannot be dropped. */
  lemma OpenCommentSwallowsSemicolon(stmt: string, rest: string)
    requires StartsComment(stmt) && '\n' !in stmt && '\n' !in rest
    ensures !Closed(stmt) && PiecesOf(stmt + ";" + rest) == [stmt + ";" + rest]
  {
    CommentToEnd(stmt + ";");
    CommentToEnd(stmt + ";" + rest);
  }

  lemma CommentToEnd(s: string)
    requires StartsComment(s) && '\n' !in s
    ensures PiecesOf(s) == [s]
  {
    assert TokenLength(s) == |s|;
    assert s[..|s|] == s && s[|s|..] == "";
    assert Tokens(s) == [s];
    assert Pieces([s]) == Glue(s, [""]);
    assert s + "" == s;
  }
}
