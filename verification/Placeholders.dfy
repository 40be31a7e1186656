/** The rewriting of `?` placeholders into `%s`, against a plain quote-toggling lexer. */
module Placeholders {
  /** Inside which quotes a position lies. */
  datatype Mode = Plain | Single | Double

  /** One character toggles the quote it opens or closes and does nothing else; doubled quotes need no rule of their own. */
  function After(m: Mode, c: char): Mode {
    match m
    case Plain => if c == '\'' then Single else if c == '"' then Double else Plain
    case Single => if c == '\'' then Plain else Single
    case Double => if c == '"' then Plain else Double
  }

  function ModeAt(sql: string): Mode {
    if sql == [] then Plain else After(ModeAt(sql[..|sql| - 1]), sql[|sql| - 1])
  }

  /** What one character becomes where it stands. */
  function Image(m: Mode, c: char): string {
    if m == Plain && c == '?' then "%s" else [c]
  }

  /** The specification: exactly the question marks outside quotes are replaced. */
  function Rewritten(sql: string): string {
    if sql == [] then []
    else
      var front, last := sql[..|sql| - 1], sql[|sql| - 1];
      Rewritten(front) + Image(ModeAt(front), last)
  }

  function ModeOf(single: bool, double: bool): Mode {
    if single then Single else if double then Double else Plain
  }

  lemma NextChar(sql: string, i: nat)
    requires i < |sql|
    ensures Rewritten(sql[..i + 1]) == Rewritten(sql[..i]) + Image(ModeAt(sql[..i]), sql[i])
    ensures ModeAt(sql[..i + 1]) == After(ModeAt(sql[..i]), sql[i])
  {
    assert sql[..i + 1][..i] == sql[..i];
  }

  /** `rewrite_qmark`: one pass with two flags, taking a doubled single quote in one step. */
  method RewriteQmark(sql: string) returns (out: string)
    ensures out == Rewritten(sql)
  {
    hide Rewritten, ModeAt;
    out := [];
    var single, double := false, false;
    var i := 0;
    assert sql[..0] == [];
    Nothing();
    while i < |sql|
      invariant 0 <= i <= |sql| && !(single && double)
      invariant out == Rewritten(sql[..i]) && ModeOf(single, double) == ModeAt(sql[..i])
    {
      var ch := sql[i];
      NextChar(sql, i);
      if ch == '\'' && !double {
        out := out + [ch];
        if single && i + 1 < |sql| && sql[i + 1] == '\'' {
          NextChar(sql, i + 1);
          out := out + ['\''];
          i := i + 2;
          continue;
        }
        single := !single;
      } else if ch == '"' && !single {
        out := out + [ch];
        double := !double;
      } else if ch == '?' && !single && !double {
        out := out + "%s";
      } else {
        out := out + [ch];
      }
      i := i + 1;
    }
    assert sql[..i] == sql;
  }

  lemma Nothing()
    ensures Rewritten([]) == [] && ModeAt([]) == Plain
  {
  }

  // ----- Undoing it -----

  /** The inverse: a `%s` outside quotes becomes a question mark. */
  function Restored(sql: string, m: Mode): string {
    if sql == [] then []
    else if m == Plain && |sql| >= 2 && sql[0] == '%' && sql[1] == 's' then "?" + Restored(sql[2..], m)
    else [sql[0]] + Restored(sql[1..], After(m, sql[0]))
  }

  /** Some `%s` stands outside quotes; `m` is the mode at the start. */
  predicate HasPlaceholder(sql: string, m: Mode) {
    sql != [] && ((m == Plain && |sql| >= 2 && sql[0] == '%' && sql[1] == 's') || HasPlaceholder(sql[1..], After(m, sql[0])))
  }

  /** The rewriting from the front, from a given mode. */
  function RewrittenFrom(sql: string, m: Mode): string {
    if sql == [] then [] else Image(m, sql[0]) + RewrittenFrom(sql[1..], After(m, sql[0]))
  }

  function ModeFrom(sql: string, m: Mode): Mode {
    if sql == [] then m else ModeFrom(sql[1..], After(m, sql[0]))
  }

  lemma {:induction false} FrontToBack(sql: string, c: char, m: Mode)
    ensures RewrittenFrom(sql + [c], m) == RewrittenFrom(sql, m) + Image(ModeFrom(sql, m), c)
    ensures ModeFrom(sql + [c], m) == After(ModeFrom(sql, m), c)
  {
    hide After, Image;
    if sql == [] {
      assert [c][1..] == [] && sql + [c] == [c];
    } else {
      assert (sql + [c])[1..] == sql[1..] + [c];
      FrontToBack(sql[1..], c, After(m, sql[0]));
    }
  }

  lemma {:induction false} RewrittenIsRewrittenFrom(sql: string)
    ensures Rewritten(sql) == RewrittenFrom(sql, Plain) && ModeAt(sql) == ModeFrom(sql, Plain)
  {
    if sql != [] {
      var front, last := sql[..|sql| - 1], sql[|sql| - 1];
      RewrittenIsRewrittenFrom(front);
      FrontToBack(front, last, Plain);
      assert sql == front + [last];
    }
  }

  /** The rewritten text starts with `s` only where the text itself does. */
  lemma StartsWithS(sql: string, m: Mode)
    ensures RewrittenFrom(sql, m) != [] ==> (RewrittenFrom(sql, m)[0] == 's' <==> sql != [] && sql[0] == 's')
  {
    if sql != [] {
      assert RewrittenFrom(sql, m)[0] == Image(m, sql[0])[0];
    }
  }

  lemma {:induction false} RestoredRewritten(sql: string, m: Mode)
    requires !HasPlaceholder(sql, m)
    ensures Restored(RewrittenFrom(sql, m), m) == sql
  {
    if sql != [] {
      var rest, next := sql[1..], After(m, sql[0]);
      RestoredRewritten(rest, next);
      var image := RewrittenFrom(sql, m);
      if m == Plain && sql[0] == '?' {
        assert image[2..] == RewrittenFrom(rest, next) && image[0] == '%' && image[1] == 's';
      } else {
        assert image[0] == sql[0] && image[1..] == RewrittenFrom(rest, next);
        StartsWithS(rest, next);
      }
    }
  }

  /** Text without a `%s` outside quotes is recovered from its rewriting, whatever else it contains. */
  lemma RewritingIsUndone(sql: string)
    requires !HasPlaceholder(sql, Plain)
    ensures Restored(Rewritten(sql), Plain) == sql
  {
    RewrittenIsRewrittenFrom(sql);
    RestoredRewritten(sql, Plain);
  }

  /** And only such text: an unquoted `%s` of the source comes back as a question mark. */
  lemma {:induction false} RestoredHasNoPlaceholder(sql: string, m: Mode)
    ensures !HasPlaceholder(Restored(sql, m), m)
    decreases |sql|
  {
    if sql == [] {
    } else if m == Plain && |sql| >= 2 && sql[0] == '%' && sql[1] == 's' {
      RestoredHasNoPlaceholder(sql[2..], m);
      var r := Restored(sql, m);
      assert r[0] == '?' && r[1..] == Restored(sql[2..], m);
    } else {
      var next := After(m, sql[0]);
      RestoredHasNoPlaceholder(sql[1..], next);
      var r := Restored(sql, m);
      assert r[0] == sql[0] && r[1..] == Restored(sql[1..], next);
      if m == Plain && sql[0] == '%' && |r| >= 2 && r[1] == 's' {
        RestoredStarts(sql[1..], next);
      }
    }
  }

  lemma RestoredStarts(sql: string, m: Mode)
    requires Restored(sql, m) != [] && Restored(sql, m)[0] == 's'
    ensures sql != [] && sql[0] == 's'
  {
  }

  /** The rewriting is undone exactly when the text has no `%s` outside quotes. */
  lemma UndoneIff(sql: string)
    ensures Restored(Rewritten(sql), Plain) == sql <==> !HasPlaceholder(sql, Plain)
  {
    if !HasPlaceholder(sql, Plain) {
      RewritingIsUndone(sql);
    } else {
      RestoredHasNoPlaceholder(Rewritten(sql), Plain);
    }
  }
}
