/**
 The stream filter of the test library that turns program output into comments: it
 puts a prefix at the start of every line, across any division into writes.
 */
module CommentWriter {
  const PREFIX := "# "

  /** `s` with the prefix in front of every line that has been started. */
  function Commented(s: string, atStart: bool): string {
    if s == "" then "" else Head(s[0], atStart) + Commented(s[1..], s[0] == '\n')
  }

  function Head(c: char, atStart: bool): string {
    if atStart then PREFIX + [c] else [c]
  }

  /** The next character starts a line. */
  function AtStart(s: string, atStart: bool): bool {
    if s == "" then atStart else s[|s| - 1] == '\n'
  }

  lemma {:induction false} CommentedConcat(s: string, t: string, atStart: bool)
    ensures Commented(s + t, atStart) == Commented(s, atStart) + Commented(t, AtStart(s, atStart))
  {
    if s == "" {
      assert s + t == t;
    } else {
      CommentedConcat(s[1..], t, s[0] == '\n');
      assert (s + t)[1..] == s[1..] + t && (s + t)[0] == s[0];
      assert AtStart(s, atStart) == AtStart(s[1..], s[0] == '\n');
      Associates(Head(s[0], atStart), Commented(s[1..], s[0] == '\n'), Commented(t, AtStart(s, atStart)));
    }
  }

  lemma {:induction false} Associates(a: string, b: string, c: string)
    ensures a + (b + c) == (a + b) + c
  {
  }

  /** Text without the prefixes. */
  function Stripped(t: string, atStart: bool): string {
    if t == "" then "" else
    if atStart && PREFIX <= t && |t| > 2 then [t[2]] + Stripped(t[3..], t[2] == '\n')
    else if atStart && PREFIX == t then ""
    else [t[0]] + Stripped(t[1..], t[0] == '\n')
  }

  lemma {:induction false} StrippedHead(c: char, rest: string, atStart: bool)
    ensures Stripped(Head(c, atStart) + rest, atStart) == [c] + Stripped(rest, c == '\n')
  {
    var t := Head(c, atStart) + rest;
    if atStart {
      assert PREFIX <= t && t[2] == c && t[3..] == rest;
    } else {
      assert t[0] == c && t[1..] == rest;
    }
  }

  /** Nothing is lost: the text comes back when the prefixes are taken off. */
  lemma {:induction false} StripUndoesComment(s: string, atStart: bool)
    ensures Stripped(Commented(s, atStart), atStart) == s
  {
    if s == "" {
    } else {
      StripUndoesComment(s[1..], s[0] == '\n');
      StrippedHead(s[0], Commented(s[1..], s[0] == '\n'), atStart);
    }
  }

  /** Python's `data.replace("\n", "\n# ")`. */
  function ReplaceNewlines(s: string): string {
    if s == "" then "" else
      (if s[0] == '\n' then "\n" + PREFIX else [s[0]]) + ReplaceNewlines(s[1..])
  }

  /** Replacing newlines prefixes the lines that follow them, one too many if the text ends with one. */
  lemma {:induction false} ReplaceIsComment(s: string)
    ensures ReplaceNewlines(s) == Commented(s, false) + if AtStart(s, false) then PREFIX else ""
  {
    if s == "" {
    } else {
      var rest, more := s[1..], if AtStart(s[1..], false) then PREFIX else "";
      ReplaceIsComment(rest);
      if s[0] != '\n' {
        Associates([s[0]], Commented(rest, false), more);
      } else if rest == "" {
        assert s == "\n";
      } else {
        StartedLine(rest);
        Associates("\n" + PREFIX, Commented(rest, false), more);
        Associates("\n", PREFIX, Commented(rest, false));
      }
    }
  }

  lemma {:induction false} ReplaceConcat(s: string, t: string)
    ensures ReplaceNewlines(s + t) == ReplaceNewlines(s) + ReplaceNewlines(t)
  {
    if s == "" {
      assert s + t == t;
    } else {
      var head := if s[0] == '\n' then "\n" + PREFIX else [s[0]];
      ReplaceConcat(s[1..], t);
      assert (s + t)[1..] == s[1..] + t && (s + t)[0] == s[0];
      Associates(head, ReplaceNewlines(s[1..]), ReplaceNewlines(t));
    }
  }

  function EndsLine(s: string): bool {
    s != "" && s[|s| - 1] == '\n'
  }

  /** What one write puts out, as the code computes it. */
  function Emitted(chunk: string, atNl: bool): string {
    var text := (if atNl then PREFIX else "") + chunk;
    if EndsLine(text) then ReplaceNewlines(text[..|text| - 1]) + "\n" else ReplaceNewlines(text)
  }

  lemma {:induction false} NewlineCommented(atStart: bool)
    ensures Commented("\n", atStart) == (if atStart then PREFIX else "") + "\n"
  {
    assert "\n"[1..] == "" && Commented("", true) == "";
  }

  lemma {:induction false} BodyEmitted(chunk: string)
    ensures Emitted(chunk, false) == Commented(chunk, false)
  {
    assert "" + chunk == chunk;
    if EndsLine(chunk) {
      var body := chunk[..|chunk| - 1];
      assert chunk == body + "\n";
      ReplaceIsComment(body);
      CommentedConcat(body, "\n", false);
      NewlineCommented(AtStart(body, false));
      Associates(Commented(body, false), if AtStart(body, false) then PREFIX else "", "\n");
    } else {
      ReplaceIsComment(chunk);
    }
  }

  /** A write puts out the commented piece, after a prefix if it starts a line. */
  lemma {:induction false} EmittedIs(chunk: string, atNl: bool)
    ensures Emitted(chunk, atNl) == (if atNl then PREFIX else "") + Commented(chunk, false)
  {
    BodyEmitted(chunk);
    if atNl {
      var text := PREFIX + chunk;
      assert "" + chunk == chunk;
      assert ReplaceNewlines(PREFIX) == PREFIX by {
        assert PREFIX[1..] == " " && " "[1..] == "";
        assert ReplaceNewlines("") == "" && ReplaceNewlines(" ") == " ";
      }
      if EndsLine(chunk) {
        assert text[..|text| - 1] == PREFIX + chunk[..|chunk| - 1];
        ReplaceConcat(PREFIX, chunk[..|chunk| - 1]);
      } else {
        ReplaceConcat(PREFIX, chunk);
      }
    }
  }

  /** The output for some data, when a prefix may have been written ahead of its line. */
  function Output(data: string, atNl: bool): string {
    Commented(data, true) + if AtStart(data, true) && !atNl then PREFIX else ""
  }

  /** Writing a piece turns the output for the data so far into the output for all of it. */
  lemma {:induction false} WriteAppends(data: string, atNl: bool, chunk: string)
    requires atNl ==> AtStart(data, true)
    ensures Output(data, atNl) + Emitted(chunk, atNl) == Output(data + chunk, EndsLine(chunk))
  {
    EmittedIs(chunk, atNl);
    CommentedConcat(data, chunk, true);
    var c, body := Commented(data, true), Commented(chunk, false);
    if AtStart(data, true) {
      Associates(c, PREFIX, body);
      assert c + "" == c && "" + body == body;
      if chunk == "" {
        assert data + chunk == data && body == "" && PREFIX + "" == PREFIX;
      } else {
        StartedLine(chunk);
        assert (c + PREFIX) + body == c + Commented(chunk, true) == c + Commented(chunk, true) + "";
      }
    } else {
      assert c + "" == c && "" + body == body;
      assert chunk == "" ==> data + chunk == data;
    }
  }

  lemma {:induction false} StartedLine(s: string)
    requires s != ""
    ensures Commented(s, true) == PREFIX + Commented(s, false)
  {
    Associates(PREFIX, [s[0]], Commented(s[1..], s[0] == '\n'));
  }

  class Writer {
    var out: string
    var atNl: bool
    /** All data written so far. */
    ghost var data: string

    /** The output is the commented data, but a prefix may have been written ahead of its line. */
    ghost predicate Valid()
      reads this
    {
      (atNl ==> AtStart(data, true)) && out == Output(data, atNl)
    }

    constructor ()
      ensures Valid() && data == "" && atNl && out == ""
    {
      out, atNl, data := "", true, "";
    }

    /** Whatever the pieces, the output depends on the data only, up to a prefix written ahead by an empty piece. */
    method Write(chunk: string)
      requires Valid()
      modifies this
      ensures Valid() && data == old(data) + chunk && atNl == EndsLine(chunk)
    {
      WriteAppends(data, atNl, chunk);
      ghost var emitted := Emitted(chunk, atNl);
      var text := chunk;
      if atNl {
        text := PREFIX + text;
        atNl := false;
      }
      if text != "" && text[|text| - 1] == '\n' {
        atNl := true;
        text := text[..|text| - 1];
      }
      text := ReplaceNewlines(text);
      if atNl {
        text := text + "\n";
      }
      assert "" + chunk == chunk;
      assert text == emitted;
      out := out + text;
      data := data + chunk;
    }
  }

  // ---------- any division into pieces ----------

  function Concat(ws: seq<string>): string {
    if ws == [] then "" else Concat(ws[..|ws| - 1]) + ws[|ws| - 1]
  }

  /** The output and state of a new writer after the pieces `ws`. */
  function Written(ws: seq<string>): (string, bool) {
    if ws == [] then ("", true) else
      var (out, atNl) := Written(ws[..|ws| - 1]);
      (out + Emitted(ws[|ws| - 1], atNl), EndsLine(ws[|ws| - 1]))
  }

  /**
   The output is the commented text of all pieces together; there is one more prefix at the
   end exactly when the last piece was empty and the text so far is at the start of a line.
   */
  lemma {:induction false} ChunkingDoesNotMatter(ws: seq<string>)
    ensures Written(ws).1 <==> ws == [] || EndsLine(ws[|ws| - 1])
    ensures Written(ws).1 ==> AtStart(Concat(ws), true)
    ensures Written(ws).0 ==
            Commented(Concat(ws), true) +
            if ws != [] && ws[|ws| - 1] == "" && AtStart(Concat(ws), true) then PREFIX else ""
  {
    if ws == [] {
    } else {
      var rest, w := ws[..|ws| - 1], ws[|ws| - 1];
      ChunkingDoesNotMatter(rest);
      WrittenIsOutput(ws);
      assert w == "" ==> Concat(rest) + w == Concat(rest);
    }
  }

  lemma {:induction false} WrittenIsOutput(ws: seq<string>)
    ensures Written(ws).1 ==> AtStart(Concat(ws), true)
    ensures Written(ws).0 == Output(Concat(ws), Written(ws).1)
  {
    if ws == [] {
    } else {
      var rest, w := ws[..|ws| - 1], ws[|ws| - 1];
      WrittenIsOutput(rest);
      WriteAppends(Concat(rest), Written(rest).1, w);
    }
  }

  /** A prefix written ahead of its line is taken off as well. */
  lemma {:induction false} StripAhead(s: string, atStart: bool)
    requires AtStart(s, atStart)
    ensures Stripped(Commented(s, atStart) + PREFIX, atStart) == s
  {
    if s == "" {
      assert Commented(s, atStart) + PREFIX == PREFIX;
    } else {
      StripAhead(s[1..], s[0] == '\n');
      Associates(Head(s[0], atStart), Commented(s[1..], s[0] == '\n'), PREFIX);
      StrippedHead(s[0], Commented(s[1..], s[0] == '\n') + PREFIX, atStart);
    }
  }

  /** Whatever is written in whatever pieces, taking the prefixes off the output gives it back. */
  lemma {:induction false} StripUndoesWriting(ws: seq<string>)
    ensures Stripped(Written(ws).0, true) == Concat(ws)
  {
    ChunkingDoesNotMatter(ws);
    if ws != [] && ws[|ws| - 1] == "" && AtStart(Concat(ws), true) {
      StripAhead(Concat(ws), true);
    } else {
      assert Commented(Concat(ws), true) + "" == Commented(Concat(ws), true);
      StripUndoesComment(Concat(ws), true);
    }
  }
}
