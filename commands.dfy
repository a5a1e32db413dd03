/**
 * The text command of a placement turn (Game.prototype.messageReceive):
 * the message is split on single spaces; the first two characters of the
 * first token are the digits x and y, and the ship is vertical exactly when
 * the second token is "vertical" (case-sensitive).
 */
module Commands {

  datatype Option<T> = None | Some(value: T)

  /** A parsed placement command: anchor (x, y) and orientation. */
  datatype Command = Command(x: int, y: int, vertical: bool)

  predicate IsDigit(ch: char) {
    '0' <= ch <= '9'
  }

  /** parseInt of a single digit character. */
  function DigitValue(ch: char): (v: int)
    requires IsDigit(ch)
    ensures 0 <= v <= 9
  {
    ch as int - '0' as int
  }

  /** The digit character of a value 0..9; the inverse of DigitValue. */
  function DigitChar(v: int): (ch: char)
    requires 0 <= v <= 9
    ensures IsDigit(ch) && DigitValue(ch) == v
  {
    ('0' as int + v) as char
  }

  /** Tokens glued back together with single spaces. */
  function Join(parts: seq<string>): string
    requires |parts| >= 1
  {
    if |parts| == 1 then parts[0] else parts[0] + " " + Join(parts[1..])
  }

  /** `message.split(" ")`: the space-free pieces between single spaces; two
      adjacent spaces give an empty piece, and there is always one piece. */
  function Split(s: string): (parts: seq<string>)
    ensures |parts| >= 1
    ensures Join(parts) == s
    ensures forall k :: 0 <= k < |parts| ==> ' ' !in parts[k]
    decreases |s|
  {
    if s == [] then [""]
    else
      var rest := Split(s[1..]);
      if s[0] == ' ' then [""] + rest
      else [[s[0]] + rest[0]] + rest[1..]
  }

  /** The first piece is a prefix of the message that ends at its end or
      at a space. */
  lemma FirstPieceIsPrefix(s: string)
    ensures Split(s)[0] <= s
    ensures |Split(s)[0]| == |s| || s[|Split(s)[0]|] == ' '
  {
    var parts := Split(s);
    if |parts| > 1 {
      assert s == parts[0] + " " + Join(parts[1..]);
    }
  }

  /** Parse a placement command.  None stands for a message whose first two
      characters are not both digits, where the source computes NaN. */
  function ParseCommand(message: string): (r: Option<Command>)
    ensures r.Some? <==> |message| >= 2 && IsDigit(message[0]) && IsDigit(message[1])
    ensures r.Some? ==> r.value.x == DigitValue(message[0]) && r.value.y == DigitValue(message[1])
  {
    var parts := Split(message);
    var token := parts[0];
    FirstPieceIsPrefix(message);
    if |token| >= 2 && IsDigit(token[0]) && IsDigit(token[1]) then
      Some(Command(DigitValue(token[0]), DigitValue(token[1]), |parts| >= 2 && parts[1] == "vertical"))
    else
      None
  }

  /** The text a player types for a command. */
  function Format(c: Command): string
    requires 0 <= c.x <= 9 && 0 <= c.y <= 9
  {
    [DigitChar(c.x), DigitChar(c.y)] + if c.vertical then " vertical" else ""
  }

  // ---------------------------------------------------------------------
  // Lemmas

  /** A space-free string followed by nothing or by a space starts with
      itself as the first piece. */
  lemma {:induction false} SplitFirstPiece(a: string, t: string)
    requires ' ' !in a
    requires t == [] || t[0] == ' '
    ensures Split(a + t)[0] == a
    decreases |a|
  {
    if a != [] {
      assert (a + t)[1..] == a[1..] + t;
      SplitFirstPiece(a[1..], t);
    }
  }

  /** A space-free string is a single piece. */
  lemma {:induction false} SplitNoSpace(a: string)
    requires ' ' !in a
    ensures Split(a) == [a]
    decreases |a|
  {
    if a != [] {
      SplitNoSpace(a[1..]);
    }
  }

  /** The first space ends the first piece; the rest is split on its own. */
  lemma {:induction false} SplitAtSpace(a: string, b: string)
    requires ' ' !in a
    ensures Split(a + " " + b) == [a] + Split(b)
    decreases |a|
  {
    if a == [] {
      assert a + " " + b == [' '] + b;
    } else {
      assert (a + " " + b)[1..] == a[1..] + " " + b;
      SplitAtSpace(a[1..], b);
      var rest := Split(a[1..] + " " + b);
      assert rest[0] == a[1..] && rest[1..] == Split(b);
      assert [a[0]] + a[1..] == a;
    }
  }

  /** A message of two tokens: the second decides the orientation, and only
      the exact word "vertical" makes the ship vertical. */
  lemma ParseTwoTokens(first: string, second: string, tail: string)
    requires ' ' !in first && ' ' !in second
    requires |first| >= 2 && IsDigit(first[0]) && IsDigit(first[1])
    requires tail == [] || tail[0] == ' '
    ensures ParseCommand(first + " " + second + tail)
      == Some(Command(DigitValue(first[0]), DigitValue(first[1]), second == "vertical"))
  {
    var m := first + " " + second + tail;
    assert m == first + " " + (second + tail);
    SplitAtSpace(first, second + tail);
    SplitFirstPiece(second, tail);
  }

  /** A message of one token places the ship horizontally. */
  lemma ParseOneToken(first: string)
    requires ' ' !in first
    requires |first| >= 2 && IsDigit(first[0]) && IsDigit(first[1])
    ensures ParseCommand(first) == Some(Command(DigitValue(first[0]), DigitValue(first[1]), false))
  {
    SplitNoSpace(first);
  }

  /** Parsing recovers the command from the text a player types for it. */
  lemma ParseFormat(c: Command)
    requires 0 <= c.x <= 9 && 0 <= c.y <= 9
    ensures ParseCommand(Format(c)) == Some(c)
  {
    var first := [DigitChar(c.x), DigitChar(c.y)];
    if c.vertical {
      ParseTwoTokens(first, "vertical", "");
      assert Format(c) == first + " " + "vertical" + "";
    } else {
      ParseOneToken(first);
    }
  }

  /** The orientation keyword is case-sensitive: "Vertical" means horizontal. */
  lemma VerticalIsCaseSensitive()
    ensures ParseCommand("55 Vertical") == Some(Command(5, 5, false))
  {
    ParseTwoTokens("55", "Vertical", "");
    assert "55" + " " + "Vertical" + "" == "55 Vertical";
  }
}
