/** The text form of commands: writing with escapes, and the index driven parser.  A byte is
    written as the character with its code. */
module CommandText {
  import opened Options

  type Text = seq<char>

  const VT: char := '\U{0B}'
  const FF: char := '\U{0C}'

  predicate IsSpace(c: char) {
    c == VT || c == FF || c == '\t' || c == '\r' || c == '\n' || c == ' '
  }

  /** What ends a value. */
  predicate IsStop(c: char) {
    IsSpace(c) || c == '|'
  }

  /** What ends a name. */
  predicate EndsName(c: char) {
    c == ' ' || c == '=' || c == '|'
  }

  predicate IsAlphanumeric(c: char) {
    'a' <= c <= 'z' || 'A' <= c <= 'Z' || '0' <= c <= '9'
  }

  // ---------- Escaping ----------

  function Escape(c: char): (r: Text)
    ensures 1 <= |r| <= 2
  {
    if c == VT then ['\\', 'v']
    else if c == FF then ['\\', 'f']
    else if c == '\\' then ['\\', '\\']
    else if c == '\t' then ['\\', 't']
    else if c == '\r' then ['\\', 'r']
    else if c == '\n' then ['\\', 'n']
    else if c == '|' then ['\\', 'p']
    else if c == ' ' then ['\\', 's']
    else if c == '/' then ['\\', '/']
    else [c]
  }

  /** The meaning of the character after a backslash. */
  function Plain(c: char): char {
    if c == 'v' then VT
    else if c == 'f' then FF
    else if c == 't' then '\t'
    else if c == 'r' then '\r'
    else if c == 'n' then '\n'
    else if c == 'p' then '|'
    else if c == 's' then ' '
    else c
  }

  lemma EscapeIsUndone(c: char)
    ensures var r := Escape(c);
            && (|r| == 1 ==> r[0] == c && c != '\\' && !IsStop(c))
            && (|r| == 2 ==> r[0] == '\\' && Plain(r[1]) == c && !IsStop(r[1]))
  {
  }

  /** Nine characters are escaped: blanks, the bar, the backslash and the slash. */
  lemma EscapedCharactersAre(c: char)
    ensures Escape(c) == [c] <==> c !in {VT, FF, '\\', '\t', '\r', '\n', '|', ' ', '/'}
    ensures Escape(' ') == "\\s" && Escape('|') == "\\p" && Escape('\\') == "\\\\" && Escape('/') == "\\/"
    ensures Escape('\t') == "\\t" && Escape('\r') == "\\r" && Escape('\n') == "\\n"
    ensures Escape(VT) == "\\v" && Escape(FF) == "\\f"
    ensures Plain(c) == c <==> c !in {'v', 'f', 't', 'r', 'n', 'p', 's'}
  {
  }

  function Escaped(v: Text, i: nat): Text
    decreases |v| - i
  {
    if i >= |v| then [] else Escape(v[i]) + Escaped(v, i + 1)
  }

  function Unescaped(raw: Text, i: nat): Text
    decreases |raw| - i
  {
    if i >= |raw| then []
    else if raw[i] == '\\' then
      if i + 1 == |raw| then [] else [Plain(raw[i + 1])] + Unescaped(raw, i + 2)
    else [raw[i]] + Unescaped(raw, i + 1)
  }

  /** The number of escape sequences, counting a lone backslash at the end. */
  function CountEscapes(raw: Text, i: nat): nat
    decreases |raw| - i
  {
    if i >= |raw| then 0
    else if raw[i] == '\\' then 1 + CountEscapes(raw, i + 2)
    else CountEscapes(raw, i + 1)
  }

  /** Unescaping takes away one character for each escape sequence. */
  lemma {:induction false} UnescapedLength(raw: Text, i: nat)
    requires i <= |raw|
    ensures |Unescaped(raw, i)| == |raw| - i - CountEscapes(raw, i)
    decreases |raw| - i
  {
    if i < |raw| {
      if raw[i] != '\\' {
        UnescapedLength(raw, i + 1);
      } else if i + 1 < |raw| {
        UnescapedLength(raw, i + 2);
      }
    }
  }

  lemma {:induction false} NoEscapesNoChange(raw: Text, i: nat)
    requires i <= |raw| && CountEscapes(raw, i) == 0
    ensures Unescaped(raw, i) == raw[i..]
    decreases |raw| - i
  {
    if i < |raw| {
      NoEscapesNoChange(raw, i + 1);
    }
  }

  lemma SuffixStarts(raw: Text, i: nat, e: Text, rest: Text)
    requires i <= |raw| && raw[i..] == e + rest
    ensures i + |e| <= |raw| && raw[i + |e|..] == rest
    ensures forall k :: 0 <= k < |e| ==> raw[i + k] == e[k]
  {
    assert raw[i + |e|..] == raw[i..][|e|..] == rest;
    forall k | 0 <= k < |e|
      ensures raw[i + k] == e[k]
    {
      assert raw[i + k] == raw[i..][k];
    }
  }

  /** Unescaping undoes escaping, from any character on. */
  lemma {:induction false} UnescapeEscaped(raw: Text, i: nat, v: Text, j: nat)
    requires i <= |raw| && j <= |v| && raw[i..] == Escaped(v, j)
    ensures Unescaped(raw, i) == v[j..]
    decreases |v| - j
  {
    hide Escape, Plain;
    if j < |v| {
      var e := Escape(v[j]);
      EscapeIsUndone(v[j]);
      SuffixStarts(raw, i, e, Escaped(v, j + 1));
      assert raw[i + 0] == e[0];
      UnescapeEscaped(raw, i + |e|, v, j + 1);
    }
  }

  // ---------- The parser ----------

  datatype Value = Value(raw: Text, escapes: nat) {
    function Unescape(): Text {
      Unescaped(raw, 0)
    }

    /** The value; without escapes the raw text is taken as it is. */
    function Get(): Text {
      if escapes == 0 then raw else Unescape()
    }
  }

  datatype Item = NextCommand | Argument(name: Text, value: Value)

  function SkipSpace(data: Text, i: nat): (r: nat)
    requires i <= |data|
    ensures i <= r <= |data|
    decreases |data| - i
  {
    if i < |data| && IsSpace(data[i]) then SkipSpace(data, i + 1) else i
  }

  function NameEnd(data: Text, i: nat): (r: nat)
    requires i <= |data|
    ensures i <= r <= |data|
    decreases |data| - i
  {
    if i < |data| && !EndsName(data[i]) then NameEnd(data, i + 1) else i
  }

  function ValueEnd(data: Text, i: nat): (r: nat)
    requires i <= |data|
    ensures i <= r <= |data|
    decreases |data| - i
  {
    if i == |data| || IsStop(data[i]) then i
    else if data[i] == '\\' then
      if i + 1 == |data| || IsStop(data[i + 1]) then i + 1 else ValueEnd(data, i + 2)
    else ValueEnd(data, i + 1)
  }

  function EscapesFrom(data: Text, i: nat): nat
    requires i <= |data|
    decreases |data| - i
  {
    if i == |data| || IsStop(data[i]) then 0
    else if data[i] == '\\' then
      if i + 1 == |data| || IsStop(data[i + 1]) then 1 else 1 + EscapesFrom(data, i + 2)
    else EscapesFrom(data, i + 1)
  }

  /** The next item at index `i`, and the index after it. */
  function NextItem(data: Text, i: nat): (r: (Option<Item>, nat))
    requires i <= |data|
    ensures i <= r.1 <= |data| && (r.0.Some? ==> i < r.1)
  {
    var start := SkipSpace(data, i);
    if start == |data| then (None, start)
    else if data[start] == '|' then (Some(NextCommand), start + 1)
    else
      var end := NameEnd(data, start);
      var name := data[start..end];
      if end == |data| || data[end] != '=' then
        SkipSpaceStops(data, i);
        (Some(Argument(name, Value([], 0))), end)
      else
        var stop := ValueEnd(data, end + 1);
        (Some(Argument(name, Value(data[end + 1..stop], EscapesFrom(data, end + 1)))), stop)
  }

  lemma {:induction false} SkipSpaceStops(data: Text, i: nat)
    requires i <= |data|
    ensures SkipSpace(data, i) < |data| ==> !IsSpace(data[SkipSpace(data, i)])
    decreases |data| - i
  {
    if i < |data| && IsSpace(data[i]) {
      SkipSpaceStops(data, i + 1);
    }
  }

  const BLANKS: set<char> := {VT, FF, '\t', '\r', '\n', ' '}

  /** All characters between two places are of a kind, and the one at the end is not. */
  ghost predicate Longest(data: Text, from: nat, end: nat, chars: set<char>, inside: bool) {
    && from <= end <= |data|
    && (forall k :: from <= k < end ==> (data[k] in chars <==> inside))
    && (end < |data| ==> (data[end] in chars <==> !inside))
  }

  lemma {:induction false} SkipsBlanks(data: Text, i: nat)
    requires i <= |data|
    ensures Longest(data, i, SkipSpace(data, i), BLANKS, true)
    decreases |data| - i
  {
    if i < |data| && IsSpace(data[i]) {
      SkipsBlanks(data, i + 1);
    }
  }

  lemma {:induction false} NameIsLongest(data: Text, i: nat)
    requires i <= |data|
    ensures Longest(data, i, NameEnd(data, i), {' ', '=', '|'}, false)
    decreases |data| - i
  {
    if i < |data| && !EndsName(data[i]) {
      NameIsLongest(data, i + 1);
    }
  }

  lemma {:induction false} ValueIsLongest(data: Text, i: nat)
    requires i <= |data|
    ensures Longest(data, i, ValueEnd(data, i), BLANKS + {'|'}, false)
    decreases |data| - i
  {
    if i < |data| && !IsStop(data[i]) {
      if data[i] != '\\' {
        ValueIsLongest(data, i + 1);
      } else if i + 1 < |data| && !IsStop(data[i + 1]) {
        ValueIsLongest(data, i + 2);
      }
    }
  }

  /** On any text: after blanks, a bar is an item of its own.  A name goes up to a space, a bar or an
      equals sign, and a value after that up to a blank or a bar, escaped or not. */
  lemma NextItemMeans(data: Text, i: nat) returns (start: nat, end: nat)
    requires i <= |data|
    ensures Longest(data, i, start, BLANKS, true) && Longest(data, start, end, {' ', '=', '|'}, false)
    ensures var (item, next) := NextItem(data, i);
            if start == |data| then item == None && next == start
            else if data[start] == '|' then item == Some(NextCommand) && next == start + 1
            else if end == |data| || data[end] != '=' then
              item == Some(Argument(data[start..end], Value([], 0))) && next == end
            else
              && Longest(data, end + 1, next, BLANKS + {'|'}, false)
              && item.Some? && item.value.Argument? && item.value.name == data[start..end]
              && item.value.value.raw == data[end + 1..next]
  {
    start := SkipSpace(data, i);
    end := NameEnd(data, start);
    SkipsBlanks(data, i);
    NameIsLongest(data, start);
    if end < |data| {
      ValueIsLongest(data, end + 1);
    }
  }

  function Items(data: Text, i: nat): seq<Item>
    requires i <= |data|
    decreases |data| - i
  {
    var (item, next) := NextItem(data, i);
    if item.None? then [] else [item.value] + Items(data, next)
  }

  /** Where the command name ends: at the first space, or nowhere if it is no name. */
  function CommandNameEnd(data: Text, i: nat): (r: nat)
    requires i <= |data|
    ensures r <= |data|
    decreases |data| - i
  {
    if i == |data| then i
    else if IsAlphanumeric(data[i]) then CommandNameEnd(data, i + 1)
    else if data[i] == ' ' then i
    else 0
  }

  lemma {:induction false} NameOrNothing(data: Text, i: nat) returns (j: nat)
    requires i <= |data|
    ensures i <= j <= |data|
    ensures forall k :: i <= k < j ==> 'a' <= data[k] <= 'z' || 'A' <= data[k] <= 'Z' || '0' <= data[k] <= '9'
    ensures j < |data| ==> !('a' <= data[j] <= 'z' || 'A' <= data[j] <= 'Z' || '0' <= data[j] <= '9')
    ensures CommandNameEnd(data, i) == if j == |data| || data[j] == ' ' then j else 0
    decreases |data| - i
  {
    j := i;
    if i < |data| && IsAlphanumeric(data[i]) {
      j := NameOrNothing(data, i + 1);
    }
  }

  /** On any text: the command name is the letters and digits at its start, if a space or nothing
      follows, and empty otherwise. */
  lemma CommandNameMeans(data: Text) returns (j: nat)
    ensures j <= |data|
    ensures forall k :: 0 <= k < j ==> 'a' <= data[k] <= 'z' || 'A' <= data[k] <= 'Z' || '0' <= data[k] <= '9'
    ensures j < |data| ==> !('a' <= data[j] <= 'z' || 'A' <= data[j] <= 'Z' || '0' <= data[j] <= '9')
    ensures Parse(data).0 == if j == |data| || data[j] == ' ' then data[..j] else []
  {
    j := NameOrNothing(data, 0);
  }

  function Parse(data: Text): (Text, seq<Item>) {
    var end := CommandNameEnd(data, 0);
    (data[..end], Items(data, end))
  }

  /** The count the parser keeps is the number of escape sequences of the raw value. */
  lemma {:induction false} ParserCountsEscapes(data: Text, start: nat, i: nat)
    requires start <= i <= |data| && i <= ValueEnd(data, start) == ValueEnd(data, i)
    ensures CountEscapes(data[start..ValueEnd(data, start)], i - start) == EscapesFrom(data, i)
    decreases |data| - i
  {
    var end := ValueEnd(data, start);
    var raw := data[start..end];
    if i < |data| && !IsStop(data[i]) {
      assert raw[i - start] == data[i];
      if data[i] != '\\' {
        ParserCountsEscapes(data, start, i + 1);
      } else if i + 1 < |data| && !IsStop(data[i + 1]) {
        ParserCountsEscapes(data, start, i + 2);
      }
    }
  }

  /** For every value the parser produces: unescaping yields exactly the raw length less the
      escapes, and the shortcut for values without escapes agrees with it. */
  lemma ParsedValueUnescapes(data: Text, i: nat)
    requires i <= |data| && NextItem(data, i).0.Some? && NextItem(data, i).0.value.Argument?
    ensures var v := NextItem(data, i).0.value.value;
            |v.Unescape()| == |v.raw| - v.escapes && v.Get() == v.Unescape()
  {
    var v := NextItem(data, i).0.value.value;
    var end := NameEnd(data, SkipSpace(data, i));
    if end < |data| && data[end] == '=' {
      ParserCountsEscapes(data, end + 1, end + 1);
    }
    UnescapedLength(v.raw, 0);
    if v.escapes == 0 {
      NoEscapesNoChange(v.raw, 0);
    }
  }

  /** The parser object. */
  class CommandParser {
    const data: Text
    var index: nat

    ghost predicate Valid()
      reads this
    {
      index <= |data|
    }

    constructor (data: Text)
      ensures Valid() && this.data == data && index == CommandNameEnd(data, 0)
    {
      var nameEnd := 0;
      while nameEnd < |data|
        invariant nameEnd <= |data| && CommandNameEnd(data, nameEnd) == CommandNameEnd(data, 0)
        decreases |data| - nameEnd
      {
        if !IsAlphanumeric(data[nameEnd]) {
          if data[nameEnd] == ' ' {
            break;
          }
          nameEnd := 0;
          break;
        }
        nameEnd := nameEnd + 1;
      }
      this.data := data;
      index := nameEnd;
    }

    /** The next item; the parser ends on every input, as each item takes at least a character. */
    method Next() returns (item: Option<Item>)
      requires Valid()
      modifies this
      ensures Valid() && (item, index) == NextItem(data, old(index))
    {
      hide IsSpace, EndsName, ValueEnd, EscapesFrom;
      while index < |data| && IsSpace(data[index])
        invariant Valid() && SkipSpace(data, index) == SkipSpace(data, old(index))
        decreases |data| - index
      {
        index := index + 1;
      }
      if index == |data| {
        return None;
      }
      if data[index] == '|' {
        index := index + 1;
        return Some(NextCommand);
      }
      var nameStart := index;
      while index < |data| && !EndsName(data[index])
        invariant nameStart <= index && Valid() && NameEnd(data, index) == NameEnd(data, nameStart)
        decreases |data| - index
      {
        index := index + 1;
      }
      var nameEnd := index;
      if index == |data| || data[index] != '=' {
        return Some(Argument(data[nameStart..nameEnd], Value([], 0)));
      }
      index := index + 1;
      var value := ReadValue();
      item := Some(Argument(data[nameStart..nameEnd], value));
    }

    /** The value from the index on, counting its escapes. */
    method ReadValue() returns (value: Value)
      requires Valid()
      modifies this
      ensures Valid() && index == ValueEnd(data, old(index))
      ensures value == Value(data[old(index)..index], EscapesFrom(data, old(index)))
    {
      hide IsStop;
      var start := index;
      var escapes := 0;
      while index < |data| && !IsStop(data[index])
        invariant start <= index && Valid() && ValueEnd(data, index) == ValueEnd(data, start)
        invariant escapes + EscapesFrom(data, index) == EscapesFrom(data, start)
        decreases |data| - index
      {
        if data[index] == '\\' {
          escapes := escapes + 1;
          index := index + 1;
          if index == |data| || IsStop(data[index]) {
            break;
          }
        }
        index := index + 1;
      }
      value := Value(data[start..index], escapes);
    }
  }

  method Unescape(value: Value) returns (res: Text)
    ensures res == value.Unescape()
  {
    res := [];
    var i := 0;
    while i < |value.raw|
      invariant res + Unescaped(value.raw, i) == value.Unescape()
    {
      if value.raw[i] == '\\' {
        i := i + 1;
        if i == |value.raw| {
          return;
        }
        res := res + [Plain(value.raw[i])];
      } else {
        res := res + [value.raw[i]];
      }
      i := i + 1;
    }
  }

  // ---------- The printer ----------

  /** What is written after the command name. */
  datatype OutItem = Part | Arg(name: Text, value: Text)

  function Assigned(content: Text, value: Text): Text {
    if value == [] then content else content + ['='] + Escaped(value, 0)
  }

  /** Arguments of one part are separated by spaces. */
  function Separated(content: Text): Text {
    if content != [] && content[|content| - 1] != '|' then content + [' '] else content
  }

  function Appended(content: Text, item: OutItem): Text {
    match item
    case Part => content + ['|']
    case Arg(name, value) => Assigned(Separated(content) + name, value)
  }

  function Written(name: Text, items: seq<OutItem>): Text {
    if items == [] then name
    else Appended(Written(name, items[..|items| - 1]), items[|items| - 1])
  }

  /** Where the space, the equals sign and the bar stand. */
  lemma AppendedMeans(content: Text, name: Text, value: Text)
    ensures Appended(content, Part) == content + "|"
    ensures content == [] || content[|content| - 1] == '|' ==>
              Appended(content, Arg(name, value))
              == content + name + (if value == [] then "" else "=" + Escaped(value, 0))
    ensures content != [] && content[|content| - 1] != '|' ==>
              Appended(content, Arg(name, value))
              == content + " " + name + (if value == [] then "" else "=" + Escaped(value, 0))
  {
    hide Escaped;
  }

  class OutCommand {
    var content: Text

    constructor (name: Text)
      ensures content == Written(name, [])
    {
      content := name;
    }

    method WriteEscaped(value: Text)
      modifies this
      ensures content == old(content) + Escaped(value, 0)
    {
      var i := 0;
      while i < |value|
        invariant content + Escaped(value, i) == old(content) + Escaped(value, 0)
      {
        content := content + Escape(value[i]);
        i := i + 1;
      }
    }

    /** For binary arguments. */
    method WriteBinArg(name: Text, value: Text)
      modifies this
      ensures content == Appended(old(content), Arg(name, value))
    {
      hide Escaped, Escape;
      if content != [] && content[|content| - 1] != '|' {
        content := content + [' '];
      }
      content := content + name;
      if value != [] {
        content := content + ['='];
        WriteEscaped(value);
      }
    }

    /** For formatted arguments: the equals sign is taken back if nothing was written. */
    method WriteArg(name: Text, value: Text)
      modifies this
      ensures content == Appended(old(content), Arg(name, value))
    {
      hide Escaped, Escape;
      if content != [] && content[|content| - 1] != '|' {
        content := content + [' '];
      }
      content := content + name + ['='];
      var len := |content|;
      WriteEscaped(value);
      EscapedIsEmpty(value);
      if |content| == len {
        content := content[..|content| - 1];
      }
    }

    method StartNewPart()
      modifies this
      ensures content == Appended(old(content), Part)
    {
      content := content + ['|'];
    }
  }

  lemma EscapedIsEmpty(value: Text)
    ensures Escaped(value, 0) == [] <==> value == []
  {
  }

  // ---------- The round trip ----------

  /** Names the parser cannot tell from their surroundings are excluded. */
  predicate LegalName(name: Text) {
    && name != [] && !IsSpace(name[0])
    && forall i :: 0 <= i < |name| ==> !EndsName(name[i])
  }

  predicate LegalItem(item: OutItem) {
    item.Arg? ==> LegalName(item.name)
  }

  /** A parsed item means what was written. */
  predicate Means(item: Item, out: OutItem) {
    match out
    case Part => item == NextCommand
    case Arg(name, value) => item.Argument? && item.name == name && item.value.Get() == value
  }

  predicate MeanAll(items: seq<Item>, outs: seq<OutItem>) {
    |items| == |outs| && forall i :: 0 <= i < |items| ==> Means(items[i], outs[i])
  }

  /** The text at an index. */
  predicate At(data: Text, i: nat, text: Text) {
    i + |text| <= |data| && data[i..i + |text|] == text
  }

  lemma {:induction false} NameIsRead(data: Text, i: nat, name: Text, j: nat)
    requires At(data, i, name) && j <= |name|
    requires forall k :: 0 <= k < |name| ==> !EndsName(name[k])
    requires i + |name| == |data| || EndsName(data[i + |name|])
    ensures NameEnd(data, i + j) == i + |name|
    decreases |name| - j
  {
    if j < |name| {
      assert data[i + j] == data[i..i + |name|][j] == name[j];
      NameIsRead(data, i, name, j + 1);
    }
  }

  lemma BackslashIsNoStop()
    ensures !IsStop('\\')
  {
  }

  lemma {:induction false} ValueIsRead(data: Text, i: nat, v: Text, j: nat)
    requires j <= |v| && At(data, i, Escaped(v, j))
    requires i + |Escaped(v, j)| == |data| || IsStop(data[i + |Escaped(v, j)|])
    ensures ValueEnd(data, i) == i + |Escaped(v, j)|
    decreases |v| - j
  {
    hide Escape, IsSpace, Plain;
    assert !IsStop('\\') by { BackslashIsNoStop(); }
    if j < |v| {
      var e := Escape(v[j]);
      var rest := Escaped(v, j + 1);
      EscapeIsUndone(v[j]);
      assert data[i..i + |e| + |rest|] == e + rest;
      assert data[i] == (e + rest)[0] == e[0];
      if |e| == 2 {
        assert data[i + 1] == (e + rest)[1] == e[1];
      }
      assert data[i + |e|..i + |e| + |rest|] == (e + rest)[|e|..] == rest;
      ValueIsRead(data, i + |e|, v, j + 1);
    }
  }

  /** No stop is left in an escaped value. */
  lemma {:induction false} EscapedHasNoStop(v: Text, j: nat)
    ensures forall k :: 0 <= k < |Escaped(v, j)| ==> !IsStop(Escaped(v, j)[k])
    decreases |v| - j
  {
    if j < |v| {
      EscapeIsUndone(v[j]);
      EscapedHasNoStop(v, j + 1);
    }
  }

  lemma {:induction false} WrittenIsPrefix(name: Text, items: seq<OutItem>, k: nat)
    requires k <= |items|
    ensures Written(name, items[..k]) <= Written(name, items)
    decreases |items|
  {
    if k < |items| {
      assert items[..|items| - 1][..k] == items[..k];
      WrittenIsPrefix(name, items[..|items| - 1], k);
    } else {
      assert items[..k] == items;
    }
  }

  lemma NameAt(data: Text, w: Text, name: Text)
    requires Separated(w) + name <= data && LegalName(name)
    ensures At(data, |Separated(w)|, name)
    ensures SkipSpace(data, |w|) == |Separated(w)|
  {
    var t := Separated(w) + name;
    assert data[|Separated(w)|] == t[|Separated(w)|] == name[0];
    assert data[|Separated(w)|..|Separated(w)| + |name|] == t[|Separated(w)|..] == name;
  }

  lemma ValueAt(data: Text, t: Text, value: Text)
    requires value != [] && Assigned(t, value) <= data
    ensures |t| < |data| && data[|t|] == '=' && At(data, |t| + 1, Escaped(value, 0))
    ensures t <= data
  {
    hide Escaped;
    var u := Assigned(t, value);
    assert data[|t|] == u[|t|] == '=';
    assert data[|t| + 1..|u|] == u[|t| + 1..] == Escaped(value, 0);
  }

  /** A written argument is read back when a space, a bar or nothing follows. */
  lemma ArgumentIsRead(data: Text, w: Text, name: Text, value: Text)
    requires Appended(w, Arg(name, value)) <= data && LegalName(name)
    requires var end := |Appended(w, Arg(name, value))|; end == |data| || data[end] == ' ' || data[end] == '|'
    ensures NextItem(data, |w|).1 == |Appended(w, Arg(name, value))|
    ensures NextItem(data, |w|).0.Some? && Means(NextItem(data, |w|).0.value, Arg(name, value))
  {
    hide Escaped, ValueEnd, NameEnd, SkipSpace, EscapesFrom, At, Unescaped;
    var start := |Separated(w)|;
    var end := start + |name|;
    if value != [] {
      ValueAt(data, Separated(w) + name, value);
    }
    NameAt(data, w, name);
    NameIsRead(data, start, name, 0);
    if value != [] {
      ValueIsRead(data, end + 1, value, 0);
      AtIs(data, end + 1, Escaped(value, 0));
      UnescapeEscaped(Escaped(value, 0), 0, value, 0);
      ParsedValueUnescapes(data, |w|);
    }
    AtIs(data, start, name);
  }

  lemma AtIs(data: Text, i: nat, text: Text)
    requires At(data, i, text)
    ensures i + |text| <= |data| && data[i..i + |text|] == text
  {
  }

  /** After an argument comes the end, a space or a bar. */
  lemma ArgumentsAreApart(w: Text, name: Text, value: Text, next: OutItem)
    requires LegalName(name)
    ensures var v := Appended(w, Arg(name, value));
            var r := Appended(v, next);
            v < r && (r[|v|] == ' ' || r[|v|] == '|')
  {
    hide Escaped;
    EscapedHasNoStop(value, 0);
    EscapedIsEmpty(value);
    var v := Appended(w, Arg(name, value));
    var t := Separated(w) + name;
    if value == [] {
      assert v[|v| - 1] == name[|name| - 1];
    } else {
      assert v[|v| - 1] == Escaped(value, 0)[|Escaped(value, 0)| - 1];
    }
  }

  /** From the place where an item was written the parser reads that item. */
  lemma ItemIsRead(name: Text, items: seq<OutItem>, k: nat)
    requires k < |items| && forall i :: 0 <= i < |items| ==> LegalItem(items[i])
    ensures var data := Written(name, items);
            var w := |Written(name, items[..k])|;
            && w < |Written(name, items[..k + 1])| <= |data|
            && NextItem(data, w).1 == |Written(name, items[..k + 1])|
            && NextItem(data, w).0.Some? && Means(NextItem(data, w).0.value, items[k])
  {
    var data := Written(name, items);
    var w := Written(name, items[..k]);
    assert items[..k + 1][..k] == items[..k];
    WrittenIsPrefix(name, items, k + 1);
    match items[k]
    case Part =>
      assert data[|w|] == Appended(w, Part)[|w|] == '|';
    case Arg(arg, value) =>
      if k + 1 < |items| {
        assert items[..k + 2][..k + 1] == items[..k + 1];
        WrittenIsPrefix(name, items, k + 2);
        ArgumentsAreApart(w, arg, value, items[k + 1]);
      } else {
        assert items[..k + 1] == items;
      }
      ArgumentIsRead(data, w, arg, value);
  }

  lemma {:induction false} ItemsAreRead(name: Text, items: seq<OutItem>, k: nat)
    requires k <= |items| && forall i :: 0 <= i < |items| ==> LegalItem(items[i])
    ensures var data := Written(name, items);
            var w := |Written(name, items[..k])|;
            w <= |data| && MeanAll(Items(data, w), items[k..])
    decreases |items| - k
  {
    hide NextItem, Means, Appended, Written;
    var data := Written(name, items);
    if k < |items| {
      ItemIsRead(name, items, k);
      ItemsAreRead(name, items, k + 1);
      var w := |Written(name, items[..k])|;
      assert items[k..] == [items[k]] + items[k + 1..];
      assert Items(data, w) == [NextItem(data, w).0.value] + Items(data, |Written(name, items[..k + 1])|);
    } else {
      assert items[..k] == items;
      AtTheEnd(data);
    }
  }

  lemma AtTheEnd(data: Text)
    ensures Items(data, |data|) == []
  {
  }

  predicate IsName(name: Text) {
    forall i :: 0 <= i < |name| ==> IsAlphanumeric(name[i])
  }

  lemma {:induction false} NameEndIsAfterName(data: Text, name: Text, i: nat)
    requires name <= data && i <= |name| && IsName(name)
    ensures CommandNameEnd(data, i) ==
            if |name| == |data| then |name| else CommandNameEnd(data, |name|)
    decreases |name| - i
  {
    if i < |name| {
      assert data[i] == name[i];
      NameEndIsAfterName(data, name, i + 1);
    }
  }

  /** Before the end of the command name there are only alphanumeric characters. */
  lemma {:induction false} NameIsAlphanumeric(data: Text, i: nat)
    requires i <= |data|
    ensures CommandNameEnd(data, i) > 0 ==> i <= CommandNameEnd(data, i)
    ensures forall k :: i <= k < CommandNameEnd(data, i) ==> IsAlphanumeric(data[k])
    decreases |data| - i
  {
    if i < |data| && IsAlphanumeric(data[i]) {
      NameIsAlphanumeric(data, i + 1);
    }
  }

  /** A character that belongs to no name and is no space ends the search for a name. */
  lemma {:induction false} NoNameBefore(data: Text, i: nat, j: nat)
    requires i <= j < |data| && !IsAlphanumeric(data[j]) && data[j] != ' '
    requires forall k :: i <= k < j ==> IsAlphanumeric(data[k])
    ensures CommandNameEnd(data, i) == 0
    decreases j - i
  {
    if i < j {
      NoNameBefore(data, i + 1, j);
    }
  }

  /** The command name is read back: it is alphanumeric and no bar follows.  An empty name is, if
      the text does not start with an argument that looks like a name. */
  predicate NameSurvives(name: Text, items: seq<OutItem>) {
    if name != [] then IsName(name) && (items == [] || items[0].Arg?)
    else
      || items == [] || items[0].Part?
      || !IsName(items[0].name) || items[0].value != [] || (|items| > 1 && items[1].Part?)
  }

  lemma FirstItemIsFirst(name: Text, items: seq<OutItem>)
    requires items != []
    ensures Appended(name, items[0]) <= Written(name, items)
    ensures |items| == 1 ==> Appended(name, items[0]) == Written(name, items)
    ensures |items| > 1 ==> Appended(Appended(name, items[0]), items[1]) <= Written(name, items)
  {
    assert items[..1][..0] == [] && items[..1][0] == items[0];
    WrittenIsPrefix(name, items, 1);
    if |items| > 1 {
      assert items[..2][..1] == items[..1] && items[..2][1] == items[1];
      WrittenIsPrefix(name, items, 2);
    } else {
      assert items[..1] == items;
    }
  }

  lemma GivenNameIsReadExactly(name: Text, items: seq<OutItem>)
    requires name != []
    ensures Parse(Written(name, items)).0 == name <==> NameSurvives(name, items)
  {
    var data := Written(name, items);
    WrittenIsPrefix(name, items, 0);
    NameIsAlphanumeric(data, 0);
    if IsName(name) {
      NameEndIsAfterName(data, name, 0);
      if items != [] {
        FirstItemIsFirst(name, items);
        var w := Appended(name, items[0]);
        assert data[|name|] == w[|name|];
      }
    }
  }

  lemma OddNameIsNoName(data: Text, a: Text)
    requires a <= data && LegalName(a) && !IsName(a)
    ensures CommandNameEnd(data, 0) == 0
  {
    var i :| 0 <= i < |a| && !IsAlphanumeric(a[i]);
    var j := FirstOther(a, i);
    assert data[j] == a[j] && forall k :: 0 <= k < j ==> data[k] == a[k];
    NoNameBefore(data, 0, j);
  }

  lemma PlainNameIsName(data: Text, a: Text)
    requires a <= data && LegalName(a) && IsName(a)
    ensures a != [] && (CommandNameEnd(data, 0) > 0 <==> |a| == |data| || CommandNameEnd(data, |a|) > 0)
  {
    NameEndIsAfterName(data, a, 0);
  }

  lemma FirstNameThenValue(items: seq<OutItem>, a: Text, value: Text)
    requires items != [] && items[0] == Arg(a, value) && value != []
    ensures var data := Written([], items);
            a <= data && |a| < |data| && data[|a|] == '='
  {
    hide Escaped, Written;
    FirstItemIsFirst([], items);
    var w := Assigned(a, value);
    assert Appended([], items[0]) == w;
    assert w[|a|] == '=';
  }

  lemma FirstNameAlone(items: seq<OutItem>, a: Text)
    requires items == [Arg(a, [])]
    ensures Written([], items) == a
  {
    hide Written;
    FirstItemIsFirst([], items);
    assert Appended([], items[0]) == a;
  }

  lemma FirstNameThenNext(items: seq<OutItem>, a: Text)
    requires |items| > 1 && items[0] == Arg(a, []) && LegalName(a) && LegalItem(items[1])
    ensures var data := Written([], items);
            a <= data && |a| < |data| && data[|a|] == if items[1].Part? then '|' else ' '
  {
    hide Escaped, Written;
    FirstItemIsFirst([], items);
    assert Appended([], items[0]) == a;
    NextIsLonger(a, items[1]);
    assert Appended(a, items[1])[|a|] == if items[1].Part? then '|' else ' ';
  }

  lemma NextIsLonger(content: Text, item: OutItem)
    ensures content <= Appended(content, item)
    ensures item.Part? ==> |Appended(content, item)| > |content|
    ensures item.Arg? && item.name != [] ==> |Appended(content, item)| > |content|
  {
  }

  /** An argument written first is taken for the command name exactly when it looks like one. */
  lemma EmptyNameIsReadExactly(items: seq<OutItem>)
    requires items != [] && LegalItem(items[0]) && (|items| > 1 ==> LegalItem(items[1]))
    ensures Parse(Written([], items)).0 == [] <==> NameSurvives([], items)
  {
    hide Escaped, Written, IsName, LegalName;
    var data := Written([], items);
    match items[0]
    case Part =>
      FirstItemIsFirst([], items);
      assert data[0] == Appended([], Part)[0] == '|';
    case Arg(a, value) =>
      if value != [] {
        FirstNameThenValue(items, a, value);
      } else if |items| > 1 {
        FirstNameThenNext(items, a);
      } else {
        assert items == [Arg(a, [])];
        FirstNameAlone(items, a);
      }
      if IsName(a) {
        PlainNameIsName(data, a);
      } else {
        OddNameIsNoName(data, a);
      }
  }

  lemma {:induction false} FirstOther(a: Text, i: nat) returns (j: nat)
    requires i < |a| && !IsAlphanumeric(a[i])
    ensures j < |a| && !IsAlphanumeric(a[j]) && forall k :: 0 <= k < j ==> IsAlphanumeric(a[k])
  {
    if k: nat :| k < i && !IsAlphanumeric(a[k]) {
      j := FirstOther(a, k);
    } else {
      j := i;
    }
  }

  /** Parsing what was written yields the name and the items that were written, exactly when the
      name survives. */
  lemma CommandRoundTrip(name: Text, items: seq<OutItem>)
    requires forall i :: 0 <= i < |items| ==> LegalItem(items[i])
    ensures var (n, parsed) := Parse(Written(name, items));
            n == name && MeanAll(parsed, items) <==> NameSurvives(name, items)
  {
    hide CommandNameEnd, MeanAll, Items, LegalItem, NameSurvives;
    if name != [] {
      GivenNameIsReadExactly(name, items);
    } else if items != [] {
      EmptyNameIsReadExactly(items);
    } else {
      NothingWritten();
    }
    ItemsAreRead(name, items, 0);
    assert items[0..] == items;
  }

  lemma NothingWritten()
    ensures Parse(Written([], [])).0 == [] && NameSurvives([], [])
  {
  }
}
