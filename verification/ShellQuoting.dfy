/** The quoting helpers of the command layer against a lexer for the shell's quoting rules
    (POSIX.1-2017, XCU sections 2.2.1 to 2.2.3). */
module ShellQuoting {
  // The lexer is strict: anything the shell would interpret further (operators, expansions, globs,
  // comments, NUL) makes it answer None.
  import opened Wrappers
  import opened Text

  // ---- Reference lexer ------------------------------------------------------------------

  // Where the lexer stands; every mode but Between carries the word read so far.
  datatype Mode = Between | Bare(word: string) | Single(word: string) | Double(word: string)

  // Characters that stand for themselves outside quotes, wherever they occur.
  predicate Plain(c: char) {
    'a' <= c <= 'z' || 'A' <= c <= 'Z' || '0' <= c <= '9' || c == '-' || c == '_' || c == '/' || c == '.'
  }

  /** The words of a command line after quote removal, or None where it is not just words. */
  function Lex(s: string, mode: Mode): Option<seq<string>>
    decreases |s|, 1
  {
    if s == "" then
      match mode
      case Between => Some([])
      case Bare(w) => Some([w])
      case _ => None
    else
      var c, rest := s[0], s[1..];
      if c == '\0' then None
      else
        match mode
        case Between => if c == ' ' || c == '\t' then Lex(rest, Between) else LexBare(s, "")
        case Bare(w) => LexBare(s, w)
        case Single(w) => if c == '\'' then Lex(rest, Bare(w)) else Lex(rest, Single(w + [c]))
        case Double(w) =>
          if c == '"' then Lex(rest, Bare(w))
          else if c == '$' || c == '`' then None
          else if c == '\\' && rest != "" && rest[0] in "$`\"\\" then Lex(rest[1..], Double(w + [rest[0]]))
          else if c == '\\' && rest != "" && rest[0] == '\n' then Lex(rest[1..], Double(w))
          else Lex(rest, Double(w + [c]))
  }

  function LexBare(s: string, w: string): Option<seq<string>>
    requires s != ""
    decreases |s|, 0
  {
    var c, rest := s[0], s[1..];
    if c == ' ' || c == '\t' then
      var more := Lex(rest, Between);
      if more.Some? then Some([w] + more.value) else None
    else if c == '\'' then Lex(rest, Single(w))
    else if c == '"' then Lex(rest, Double(w))
    else if c == '\\' then
      if rest == "" || rest[0] == '\0' then None
      else if rest[0] == '\n' then Lex(rest[1..], Bare(w))
      else Lex(rest[1..], Bare(w + [rest[0]]))
    else if Plain(c) then Lex(rest, Bare(w + [c]))
    else None
  }

  function Words(line: string): Option<seq<string>> {
    Lex(line, Between)
  }

  predicate NulFree(s: string) {
    '\0' !in s
  }

  // ---- Single quoting -------------------------------------------------------------------

  function EscapeSingle(v: string): string {
    if v == "" then ""
    else (if v[0] == '\'' then "'\\''" else [v[0]]) + EscapeSingle(v[1..])
  }

  /** shq: wrap in single quotes, each embedded quote leaving and re-entering them. */
  function Shq(v: string): string {
    "'" + EscapeSingle(v) + "'"
  }

  // The four characters that replace a quote leave the quotes, add one quote and come back.
  lemma QuoteHop(after: string, w: string)
    ensures Lex(['\'', '\\', '\'', '\''] + after, Single(w)) == Lex(after, Single(w + ['\'']))
  {
    var s1 := ['\\', '\'', '\''] + after;
    var s3 := ['\''] + after;
    assert (['\'', '\\', '\'', '\''] + after)[1..] == s1;
    assert s1[1..] == ['\'', '\''] + after;
    assert s1[1..][1..] == s3;
    assert s3[1..] == after;
    assert Lex(s1, Bare(w)) == LexBare(s1, w);
    assert Lex(s3, Bare(w + ['\''])) == LexBare(s3, w + ['\'']);
  }

  // Inside single quotes the escaped value adds exactly itself to the word being read.
  lemma {:induction false} LexEscapeSingle(v: string, rest: string, w: string)
    ensures Lex(EscapeSingle(v) + ("'" + rest), Single(w))
         == if NulFree(v) then Lex(rest, Bare(w + v)) else None
  {
    var tail := "'" + rest;
    if v == "" {
      assert EscapeSingle(v) + tail == tail;
      assert w + v == w;
      assert tail[1..] == rest;
    } else {
      var rest' := v[1..];
      var after := EscapeSingle(rest') + tail;
      LexEscapeSingle(rest', rest, w + [v[0]]);
      assert w + [v[0]] + rest' == w + v;
      assert NulFree(v) == (v[0] != '\0' && NulFree(rest')) by {
        assert v == [v[0]] + rest';
      }
      if v[0] == '\'' {
        QuoteHop(after, w);
        assert EscapeSingle(v) + tail == ['\'', '\\', '\'', '\''] + after;
      } else {
        assert EscapeSingle(v) + tail == [v[0]] + after;
        assert ([v[0]] + after)[1..] == after;
      }
    }
  }

  lemma LexShq(v: string, rest: string)
    ensures Lex(Shq(v) + rest, Between) == if NulFree(v) then Lex(rest, Bare(v)) else None
  {
    var s := Shq(v) + rest;
    assert s == "'" + (EscapeSingle(v) + ("'" + rest));
    assert s[1..] == EscapeSingle(v) + ("'" + rest);
    LexEscapeSingle(v, rest, "");
    assert "" + v == v;
  }

  predicate AllPlain(p: string) {
    forall i :: 0 <= i < |p| ==> Plain(p[i])
  }

  lemma {:induction false} LexPlain(p: string, rest: string, w: string)
    requires AllPlain(p)
    ensures Lex(p + rest, Bare(w)) == Lex(rest, Bare(w + p))
    ensures NulFree(p)
  {
    if p == "" {
      assert p + rest == rest && w + p == w;
    } else {
      assert (p + rest)[1..] == p[1..] + rest;
      LexPlain(p[1..], rest, w + [p[0]]);
      assert w + [p[0]] + p[1..] == w + p;
      assert p == [p[0]] + p[1..];
    }
  }

  // ---- Whole command lines --------------------------------------------------------------

  datatype Arg = Quoted(v: string) | Bareword(v: string)

  predicate Good(a: Arg) {
    a.Bareword? ==> a.v != "" && AllPlain(a.v)
  }

  predicate Wellformed(args: seq<Arg>) {
    args == [] || (Good(args[0]) && Wellformed(args[1..]))
  }

  function Argv(args: seq<Arg>): seq<string> {
    if args == [] then [] else [args[0].v] + Argv(args[1..])
  }

  predicate AllNulFree(args: seq<Arg>) {
    args == [] || (NulFree(args[0].v) && AllNulFree(args[1..]))
  }

  function Show(a: Arg): string {
    if a.Quoted? then Shq(a.v) else a.v
  }

  // Words one blank apart, grouped to the left as a chain of + groups them.
  function Spaced(ws: seq<string>): string {
    if ws == [] then ""
    else if |ws| == 1 then ws[0]
    else Spaced(ws[..|ws| - 1]) + " " + ws[|ws| - 1]
  }

  lemma {:induction false} SpacedAppend(a: seq<string>, b: seq<string>)
    requires a != [] && b != []
    ensures Spaced(a + b) == Spaced(a) + " " + Spaced(b)
  {
    var k := |b| - 1;
    var all := a + b;
    assert all[..|all| - 1] == a + b[..k] && all[|all| - 1] == b[k];
    assert Spaced(all) == Spaced(a + b[..k]) + " " + b[k];
    if k > 0 {
      SpacedAppend(a, b[..k]);
      assert Spaced(b) == Spaced(b[..k]) + " " + b[k];
    } else {
      assert a + b[..k] == a;
    }
  }

  function Shown(args: seq<Arg>): seq<string> {
    if args == [] then [] else [Show(args[0])] + Shown(args[1..])
  }

  function Line(args: seq<Arg>): string {
    Spaced(Shown(args))
  }

  lemma {:induction false} ShownAppend(a: seq<Arg>, b: seq<Arg>)
    ensures Shown(a + b) == Shown(a) + Shown(b)
  {
    if a == [] {
      assert a + b == b;
    } else {
      assert (a + b)[1..] == a[1..] + b;
      ShownAppend(a[1..], b);
    }
  }

  lemma LineOne(a: Arg)
    ensures Line([a]) == Show(a)
  {
    assert Shown([a]) == [Show(a)];
  }

  lemma LineSnoc(args: seq<Arg>, a: Arg)
    requires args != []
    ensures Line(args + [a]) == Line(args) + " " + Show(a)
  {
    LineAppend(args, [a]);
    LineOne(a);
  }

  // Lists of arguments concatenate as lines do, one blank between them.
  lemma LineAppend(a: seq<Arg>, b: seq<Arg>)
    requires a != [] && b != []
    ensures Line(a + b) == Line(a) + " " + Line(b)
  {
    ShownAppend(a, b);
    SpacedAppend(Shown(a), Shown(b));
  }

  lemma LexShow(a: Arg, rest: string)
    requires Good(a)
    ensures a.Bareword? ==> NulFree(a.v)
    ensures Lex(Show(a) + rest, Between) == if NulFree(a.v) then Lex(rest, Bare(a.v)) else None
  {
    if a.Quoted? {
      LexShq(a.v, rest);
    } else {
      assert Plain(a.v[0]);
      LexPlain(a.v, rest, "");
      assert "" + a.v == a.v;
    }
  }

  function Prepend(w: string, ws: Option<seq<string>>): Option<seq<string>> {
    if ws.Some? then Some([w] + ws.value) else None
  }

  lemma LexBlank(rest: string, w: string)
    ensures Lex([' '] + rest, Bare(w)) == Prepend(w, Lex(rest, Between))
  {
    assert ([' '] + rest)[1..] == rest;
    assert Lex([' '] + rest, Bare(w)) == LexBare([' '] + rest, w);
  }

  // Any line of quoted and plain arguments lexes to exactly its argument vector, unless some
  // argument holds a NUL, which no shell word can.
  lemma {:induction false} LineLexes(args: seq<Arg>)
    requires Wellformed(args)
    ensures Words(Line(args)) == if AllNulFree(args) then Some(Argv(args)) else None
  {
    if args != [] {
      var a, more := args[0], args[1..];
      if more == [] {
        LexShow(a, "");
        LineOne(a);
        assert args == [a] && Show(a) + "" == Show(a);
        assert Argv(args) == [a.v];
      } else {
        var rest := Line(more);
        assert Line(args) == Show(a) + ([' '] + rest) by {
          assert args == [a] + more;
          LineOne(a);
          LineAppend([a], more);
        }
        LexShow(a, [' '] + rest);
        LexBlank(rest, a.v);
        LineLexes(more);
      }
    }
  }

  // ---- The API commands -----------------------------------------------------------------

  /** buildLimitArgs and buildLimitArgsRaw once the limits are non-negative integers. */
  function LimitArgs(up: nat, down: nat, ip: nat): string {
    "-upload-speed-limit" + " " + Decimal(up) + " " + "-download-speed-limit" + " " + Decimal(down)
    + " " + "-ip-limit" + " " + Decimal(ip)
  }

  /** apiCommand. */
  function ApiCommand(binary: string, addr: string, args: string): string {
    Shq(binary) + " " + "-api-addr" + " " + Shq(addr) + " " + args
  }

  function ListArgs(): string {
    "-api" + " " + "list"
  }

  function AddArgs(password: string, limits: string): string {
    "-api" + " " + "set" + " " + "-add-profile" + " " + "-target-password" + " " + Shq(password) + " " + limits
  }

  function ModifyArgs(hash: string, limits: string): string {
    "-api" + " " + "set" + " " + "-modify-profile" + " " + "-target-hash" + " " + Shq(hash) + " " + limits
  }

  function DeleteArgs(hash: string): string {
    "-api" + " " + "set" + " " + "-delete-profile" + " " + "-target-hash" + " " + Shq(hash)
  }

  // Lists of a few arguments, spelled out.
  lemma Args2(a: Arg, b: Arg)
    ensures Line([a, b]) == Show(a) + " " + Show(b)
    ensures Argv([a, b]) == [a.v, b.v]
    ensures AllNulFree([a, b]) == (NulFree(a.v) && NulFree(b.v))
    ensures Wellformed([a, b]) == (Good(a) && Good(b))
  {
    LineOne(a);
    LineSnoc([a], b);
    ListsAppend([a], [b]);
    assert [a] + [b] == [a, b];
  }

  lemma Args3(a: Arg, b: Arg, c: Arg)
    ensures Line([a, b, c]) == Show(a) + " " + Show(b) + " " + Show(c)
    ensures Argv([a, b, c]) == [a.v, b.v, c.v]
    ensures AllNulFree([a, b, c]) == (NulFree(a.v) && NulFree(b.v) && NulFree(c.v))
    ensures Wellformed([a, b, c]) == (Good(a) && Good(b) && Good(c))
  {
    Args2(a, b);
    LineSnoc([a, b], c);
    ListsAppend([a, b], [c]);
    assert [a, b] + [c] == [a, b, c];
  }

  lemma Args5(a: Arg, b: Arg, c: Arg, d: Arg, e: Arg)
    ensures Line([a, b, c, d, e]) == Show(a) + " " + Show(b) + " " + Show(c) + " " + Show(d) + " " + Show(e)
    ensures Argv([a, b, c, d, e]) == [a.v, b.v, c.v, d.v, e.v]
    ensures AllNulFree([a, b, c, d, e])
         == (NulFree(a.v) && NulFree(b.v) && NulFree(c.v) && NulFree(d.v) && NulFree(e.v))
    ensures Wellformed([a, b, c, d, e]) == (Good(a) && Good(b) && Good(c) && Good(d) && Good(e))
  {
    Args3(a, b, c);
    LineSnoc([a, b, c], d);
    ListsAppend([a, b, c], [d, e]);
    Args2(d, e);
    assert [a, b, c] + [d] == [a, b, c, d];
    LineSnoc([a, b, c, d], e);
    assert [a, b, c, d] + [e] == [a, b, c, d, e] == [a, b, c] + [d, e];
  }

  lemma Args6(a: Arg, b: Arg, c: Arg, d: Arg, e: Arg, f: Arg)
    ensures Line([a, b, c, d, e, f])
         == Show(a) + " " + Show(b) + " " + Show(c) + " " + Show(d) + " " + Show(e) + " " + Show(f)
    ensures Argv([a, b, c, d, e, f]) == [a.v, b.v, c.v, d.v, e.v, f.v]
    ensures AllNulFree([a, b, c, d, e, f])
         == (NulFree(a.v) && NulFree(b.v) && NulFree(c.v) && NulFree(d.v) && NulFree(e.v) && NulFree(f.v))
    ensures Wellformed([a, b, c, d, e, f]) == (Good(a) && Good(b) && Good(c) && Good(d) && Good(e) && Good(f))
  {
    Args5(a, b, c, d, e);
    LineSnoc([a, b, c, d, e], f);
    ListsAppend([a, b, c, d, e], [f]);
    assert [a, b, c, d, e] + [f] == [a, b, c, d, e, f];
  }

  // A word of plain characters is a good argument and holds no NUL.
  lemma PlainWord(p: string)
    requires p != "" && AllPlain(p)
    ensures Good(Bareword(p)) && NulFree(p)
  {
    LexPlain(p, "", "");
  }

  // Every flag and verb of the command lines is a plain word.
  lemma ApiWords()
    ensures Good(Bareword("-api")) && Good(Bareword("set")) && Good(Bareword("list"))
    ensures Good(Bareword("-target-password")) && Good(Bareword("-target-hash")) && Good(Bareword("-api-addr"))
    ensures NulFree("-api") && NulFree("set") && NulFree("list")
    ensures NulFree("-target-password") && NulFree("-target-hash") && NulFree("-api-addr")
  {
    PlainWord("-api");
    PlainWord("set");
    PlainWord("list");
    PlainWord("-target-password");
    PlainWord("-target-hash");
    PlainWord("-api-addr");
  }

  lemma LimitAndProfileFlags()
    ensures Good(Bareword("-upload-speed-limit")) && Good(Bareword("-download-speed-limit")) && Good(Bareword("-ip-limit"))
    ensures Good(Bareword("-add-profile")) && Good(Bareword("-modify-profile")) && Good(Bareword("-delete-profile"))
    ensures NulFree("-upload-speed-limit") && NulFree("-download-speed-limit") && NulFree("-ip-limit")
    ensures NulFree("-add-profile") && NulFree("-modify-profile") && NulFree("-delete-profile")
  {
    PlainWord("-upload-speed-limit");
    PlainWord("-download-speed-limit");
    PlainWord("-ip-limit");
    PlainWord("-add-profile");
    PlainWord("-modify-profile");
    PlainWord("-delete-profile");
  }

  function LimitList(up: nat, down: nat, ip: nat): seq<Arg> {
    [Bareword("-upload-speed-limit"), Bareword(Decimal(up)), Bareword("-download-speed-limit"), Bareword(Decimal(down)),
     Bareword("-ip-limit"), Bareword(Decimal(ip))]
  }

  lemma {:induction false} ListsAppend(a: seq<Arg>, b: seq<Arg>)
    ensures Argv(a + b) == Argv(a) + Argv(b)
    ensures AllNulFree(a + b) == (AllNulFree(a) && AllNulFree(b))
    ensures Wellformed(a + b) == (Wellformed(a) && Wellformed(b))
  {
    if a == [] {
      assert a + b == b;
    } else {
      assert (a + b)[1..] == a[1..] + b;
      ListsAppend(a[1..], b);
    }
  }

  // The binary and the API address go in front of every command, both quoted.
  lemma ApiCommandLexes(binary: string, addr: string, args: seq<Arg>)
    requires args != [] && Wellformed(args)
    ensures Words(ApiCommand(binary, addr, Line(args)))
         == if NulFree(binary) && NulFree(addr) && AllNulFree(args)
            then Some([binary, "-api-addr", addr] + Argv(args)) else None
  {
    var head := [Quoted(binary), Bareword("-api-addr"), Quoted(addr)];
    ApiWords();
    LimitAndProfileFlags();
    Args3(Quoted(binary), Bareword("-api-addr"), Quoted(addr));
    LineAppend(head, args);
    ListsAppend(head, args);
    LineLexes(head + args);
  }

  lemma LimitsLex(up: nat, down: nat, ip: nat)
    ensures Line(LimitList(up, down, ip)) == LimitArgs(up, down, ip)
    ensures Wellformed(LimitList(up, down, ip)) && AllNulFree(LimitList(up, down, ip))
    ensures Argv(LimitList(up, down, ip)) == ["-upload-speed-limit", Decimal(up), "-download-speed-limit", Decimal(down), "-ip-limit", Decimal(ip)]
  {
    PlainWord(Decimal(up));
    PlainWord(Decimal(down));
    PlainWord(Decimal(ip));
    ApiWords();
    LimitAndProfileFlags();
    Args6(Bareword("-upload-speed-limit"), Bareword(Decimal(up)), Bareword("-download-speed-limit"),
          Bareword(Decimal(down)), Bareword("-ip-limit"), Bareword(Decimal(ip)));
  }

  lemma ListCommandLexes(binary: string, addr: string)
    ensures Words(ApiCommand(binary, addr, ListArgs()))
         == if NulFree(binary) && NulFree(addr) then Some([binary, "-api-addr", addr] + ["-api", "list"]) else None
  {
    ApiWords();
    LimitAndProfileFlags();
    Args2(Bareword("-api"), Bareword("list"));
    ApiCommandLexes(binary, addr, [Bareword("-api"), Bareword("list")]);
  }

  function SetHead(op: string, target: string, value: string): seq<Arg> {
    [Bareword("-api"), Bareword("set"), Bareword(op), Bareword(target), Quoted(value)]
  }

  lemma SetHeadLexes(op: string, target: string, value: string)
    requires Good(Bareword(op)) && NulFree(op) && Good(Bareword(target)) && NulFree(target)
    ensures var head := SetHead(op, target, value);
      && Wellformed(head)
      && Line(head) == "-api" + " " + "set" + " " + op + " " + target + " " + Shq(value)
      && Argv(head) == ["-api", "set", op, target, value]
      && AllNulFree(head) == NulFree(value)
  {
    ApiWords();
    LimitAndProfileFlags();
    Args5(Bareword("-api"), Bareword("set"), Bareword(op), Bareword(target), Quoted(value));
  }

  lemma AddCommandLexes(binary: string, addr: string, password: string, up: nat, down: nat, ip: nat)
    ensures Words(ApiCommand(binary, addr, AddArgs(password, LimitArgs(up, down, ip))))
         == if NulFree(binary) && NulFree(addr) && NulFree(password)
            then Some([binary, "-api-addr", addr] +
                      (["-api", "set", "-add-profile", "-target-password", password]
                       + ["-upload-speed-limit", Decimal(up), "-download-speed-limit", Decimal(down), "-ip-limit", Decimal(ip)]))
            else None
  {
    var head := SetHead("-add-profile", "-target-password", password);
    ApiWords();
    LimitAndProfileFlags();
    SetHeadLexes("-add-profile", "-target-password", password);
    LimitsLex(up, down, ip);
    LineAppend(head, LimitList(up, down, ip));
    ListsAppend(head, LimitList(up, down, ip));
    ApiCommandLexes(binary, addr, head + LimitList(up, down, ip));
  }

  lemma ModifyCommandLexes(binary: string, addr: string, hash: string, up: nat, down: nat, ip: nat)
    ensures Words(ApiCommand(binary, addr, ModifyArgs(hash, LimitArgs(up, down, ip))))
         == if NulFree(binary) && NulFree(addr) && NulFree(hash)
            then Some([binary, "-api-addr", addr] +
                      (["-api", "set", "-modify-profile", "-target-hash", hash]
                       + ["-upload-speed-limit", Decimal(up), "-download-speed-limit", Decimal(down), "-ip-limit", Decimal(ip)]))
            else None
  {
    var head := SetHead("-modify-profile", "-target-hash", hash);
    ApiWords();
    LimitAndProfileFlags();
    SetHeadLexes("-modify-profile", "-target-hash", hash);
    LimitsLex(up, down, ip);
    LineAppend(head, LimitList(up, down, ip));
    ListsAppend(head, LimitList(up, down, ip));
    ApiCommandLexes(binary, addr, head + LimitList(up, down, ip));
  }

  lemma DeleteCommandLexes(binary: string, addr: string, hash: string)
    ensures Words(ApiCommand(binary, addr, DeleteArgs(hash)))
         == if NulFree(binary) && NulFree(addr) && NulFree(hash)
            then Some([binary, "-api-addr", addr] + ["-api", "set", "-delete-profile", "-target-hash", hash])
            else None
  {
    var head := SetHead("-delete-profile", "-target-hash", hash);
    ApiWords();
    LimitAndProfileFlags();
    SetHeadLexes("-delete-profile", "-target-hash", hash);
    ApiCommandLexes(binary, addr, head);
  }

  // ---- Double quoting: the wrapper of sshService.execCommand ----------------------------

  predicate DoubleSpecial(c: char) {
    c == '"' || c == '$' || c == '`' || c == '\\'
  }

  function EscapeDouble(v: string): string {
    if v == "" then "" else (if DoubleSpecial(v[0]) then ['\\', v[0]] else [v[0]]) + EscapeDouble(v[1..])
  }

  const STRICT_MODE: string := "set -euo pipefail; "

  function WrappedCommand(command: string): string {
    "/bin/bash" + " " + "-lc" + " " + ("\"" + STRICT_MODE + EscapeDouble(command) + "\"")
  }

  // Inside double quotes the escaped value adds exactly itself to the word being read: each
  // special character arrives behind the one backslash that removes its meaning.
  lemma {:induction false} LexEscapeDouble(v: string, w: string)
    ensures Lex(EscapeDouble(v) + "\"", Double(w)) == if NulFree(v) then Some([w + v]) else None
  {
    var s := EscapeDouble(v) + "\"";
    if v == "" {
      assert s == "\"" && w + v == w;
      assert s[1..] == "";
    } else {
      var after := EscapeDouble(v[1..]) + "\"";
      LexEscapeDouble(v[1..], w + [v[0]]);
      assert w + [v[0]] + v[1..] == w + v;
      assert v == [v[0]] + v[1..];
      if DoubleSpecial(v[0]) {
        assert s == ['\\', v[0]] + after;
        assert s[1..] == [v[0]] + after;
        assert s[1..][1..] == after;
      } else {
        assert s == [v[0]] + after;
        assert s[1..] == after;
      }
    }
  }

  // A text of characters without meaning inside double quotes is read as itself.
  lemma {:induction false} LexDoublePlain(p: string, rest: string, w: string)
    requires forall i :: 0 <= i < |p| ==> !DoubleSpecial(p[i]) && p[i] != '\0'
    ensures Lex(p + rest, Double(w)) == Lex(rest, Double(w + p))
  {
    if p == "" {
      assert p + rest == rest && w + p == w;
    } else {
      assert (p + rest)[1..] == p[1..] + rest;
      LexDoublePlain(p[1..], rest, w + [p[0]]);
      assert w + [p[0]] + p[1..] == w + p;
    }
  }

  lemma QuotedBodyLexes(command: string)
    ensures Lex("\"" + (STRICT_MODE + (EscapeDouble(command) + "\"")), Between)
         == if NulFree(command) then Some([STRICT_MODE + command]) else None
  {
    var body := STRICT_MODE + (EscapeDouble(command) + "\"");
    var quoted := "\"" + body;
    assert quoted[1..] == body;
    assert Lex(quoted, Between) == LexBare(quoted, "") == Lex(body, Double(""));
    LexDoublePlain(STRICT_MODE, EscapeDouble(command) + "\"", "");
    LexEscapeDouble(command, STRICT_MODE);
    assert "" + STRICT_MODE == STRICT_MODE;
  }

  // The remote shell sees bash, -lc and one word: the strict-mode prefix and the exact command.
  lemma WrappedCommandLexes(command: string)
    ensures Words(WrappedCommand(command))
         == if NulFree(command) then Some(["/bin/bash", "-lc", "set -euo pipefail; " + command]) else None
  {
    var quoted := "\"" + (STRICT_MODE + (EscapeDouble(command) + "\""));
    assert WrappedCommand(command) == "/bin/bash" + ([' '] + ("-lc" + ([' '] + quoted)));
    QuotedBodyLexes(command);
    PlainWord("/bin/bash");
    PlainWord("-lc");
    LexShow(Bareword("/bin/bash"), [' '] + ("-lc" + ([' '] + quoted)));
    LexBlank("-lc" + ([' '] + quoted), "/bin/bash");
    LexShow(Bareword("-lc"), [' '] + quoted);
    LexBlank(quoted, "-lc");
    assert Words(WrappedCommand(command)) == Prepend("/bin/bash", Prepend("-lc", Lex(quoted, Between)));
    assert ["/bin/bash"] + (["-lc"] + [STRICT_MODE + command]) == ["/bin/bash", "-lc", STRICT_MODE + command];
  }
}
