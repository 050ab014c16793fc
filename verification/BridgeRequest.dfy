/** The line format of a bridge request: the printer of the server against the parser of the plugin. */
module BridgeRequest {
  import opened Basics
  import opened Numerals

  type Fields = map<string, string>

  /** Malformed is the parser's false with the capability not in doubt. */
  datatype Parsed =
    | Unauthorized
    | Malformed
    | Accepted(id: string, method_: string, params: Fields)

  const RESERVED := {"capability", "method", "id"}

  /** The first index of c in s, or the length of s. */
  function Find(s: string, c: char): (i: nat)
    ensures i <= |s|
  {
    if s == "" || s[0] == c then 0 else Find(s[1..], c) + 1
  }

  lemma {:induction false} FindIs(s: string, c: char)
    ensures c !in s[..Find(s, c)] && (Find(s, c) < |s| ==> s[Find(s, c)] == c)
  {
    if s != "" && s[0] != c {
      FindIs(s[1..], c);
      assert s[..Find(s, c)] == [s[0]] + s[1..][..Find(s[1..], c)];
    }
  }

  function StripReturn(s: string): string {
    if s != "" && s[|s| - 1] == '\r' then s[..|s| - 1] else s
  }

  predicate EndsInReturn(s: string) {
    s != "" && s[|s| - 1] == '\r'
  }

  // ------------------------------------------------------------------------- parsing

  function AfterLine(body: string): string {
    var end := Find(body, '\n');
    if end < |body| then body[end + 1..] else ""
  }

  datatype LineRead = EndOfFields | NoSeparator | Field(key: string, value: string)

  function ReadLine(line: string): LineRead {
    var separator := Find(line, '=');
    if line == "" then EndOfFields
    else if separator == |line| then NoSeparator
    else Field(line[..separator], line[separator + 1..])
  }

  function FirstLine(body: string): string {
    StripReturn(body[..Find(body, '\n')])
  }

  /** The fields of the lines up to the first empty one; a later line overrides an earlier one,
      and a line without '=' spoils the request. */
  function ReadFields(body: string, fields: Fields): Option<Fields>
    decreases |body|
  {
    if body == "" then Some(fields)
    else match ReadLine(FirstLine(body))
      case EndOfFields => Some(fields)
      case NoSeparator => None
      case Field(key, value) => ReadFields(AfterLine(body), fields[key := value])
  }

  function Judge(fields: Fields, capability: string): Parsed {
    if capability == "" || "capability" !in fields || fields["capability"] != capability then Unauthorized
    else if "method" !in fields || fields["method"] == "" then Malformed
    else Accepted(if "id" in fields then fields["id"] else "", fields["method"], fields - RESERVED)
  }

  function Parse(body: string, capability: string): Parsed {
    var fields := ReadFields(body, map[]);
    if fields.None? then Malformed else Judge(fields.value, capability)
  }

  method FindFrom(s: string, c: char, start: nat) returns (i: nat)
    requires start <= |s|
    ensures start <= i <= |s| && i - start == Find(s[start..], c)
  {
    i := start;
    while i < |s| && s[i] != c
      invariant start <= i <= |s|
      invariant Find(s[start..], c) == i - start + Find(s[i..], c)
    {
      assert s[i..][1..] == s[i + 1..];
      i := i + 1;
    }
  }

  /** What is left to read at a position, which may lie one past the end. */
  function Rest(body: string, position: nat): string {
    if position <= |body| then body[position..] else ""
  }

  /** The line at a position, without its carriage return, and where the next one starts. */
  method NextLine(body: string, position: nat) returns (line: string, next: nat)
    requires position < |body|
    ensures position < next
    ensures line == FirstLine(Rest(body, position)) && Rest(body, next) == AfterLine(Rest(body, position))
  {
    var end := FindFrom(body, '\n', position);
    line := body[position..end];
    next := end + 1;
    assert body[position..][..end - position] == line;
    assert end < |body| ==> body[position..][end - position + 1..] == body[end + 1..];
    if line != "" && line[|line| - 1] == '\r' {
      line := line[..|line| - 1];
    }
  }

  method SplitLine(line: string) returns (read: LineRead)
    ensures read == ReadLine(line)
  {
    if line == "" {
      return EndOfFields;
    }
    var separator := FindFrom(line, '=', 0);
    assert line[0..] == line;
    if separator == |line| {
      return NoSeparator;
    }
    return Field(line[..separator], line[separator + 1..]);
  }

  method ParseFields(body: string) returns (result: Option<Fields>)
    ensures result == ReadFields(body, map[])
  {
    var fields: Fields, position := map[], 0;
    assert Rest(body, 0) == body;
    while position < |body|
      invariant 0 <= position
      invariant ReadFields(Rest(body, position), fields) == ReadFields(body, map[])
      decreases |body| - position
    {
      var line, next := NextLine(body, position);
      var read := SplitLine(line);
      match read
      case EndOfFields => return Some(fields);
      case NoSeparator => return None;
      case Field(key, value) => fields := fields[key := value];
      position := next;
    }
    result := Some(fields);
  }

  method ParseRequestBody(body: string, capability: string) returns (parsed: Parsed)
    ensures parsed == Parse(body, capability)
  {
    var fields := ParseFields(body);
    if fields.None? {
      return Malformed;
    }
    parsed := Judge(fields.value, capability);
  }

  // ------------------------------------------------------------------------ printing

  function RequestId(number: nat): string {
    "req-" + Decimal(number)
  }

  function Line(key: string, value: string): string {
    key + "=" + value + "\n"
  }

  function ParamLines(keys: seq<string>, params: Fields): string
    requires forall k :: k in keys ==> k in params
  {
    if keys == [] then "" else Line(keys[0], params[keys[0]]) + ParamLines(keys[1..], params)
  }

  predicate Lists(keys: seq<string>, params: Fields) {
    && (forall k :: k in keys ==> k in params)
    && (forall k :: k in params ==> k in keys)
    && (forall i, j :: 0 <= i < j < |keys| ==> keys[i] != keys[j])
  }

  function Build(capability: string, number: nat, method_: string, keys: seq<string>, params: Fields): string
    requires Lists(keys, params)
  {
    Line("capability", capability) + (Line("id", RequestId(number)) +
    (Line("method", method_) + (ParamLines(keys, params) + "\n")))
  }

  lemma {:induction false} ParamLinesGrow(keys: seq<string>, n: nat, params: Fields)
    requires n < |keys| && forall k :: k in keys ==> k in params
    ensures ParamLines(keys[..n + 1], params) == ParamLines(keys[..n], params) + Line(keys[n], params[keys[n]])
  {
    if n > 0 {
      ParamLinesGrow(keys[1..], n - 1, params);
      assert keys[..n + 1][1..] == keys[1..][..n];
      assert keys[..n][1..] == keys[1..][..n - 1];
      assert keys[..n + 1][0] == keys[..n][0] == keys[0];
    } else {
      assert keys[..1][1..] == [] && keys[..0] == [];
    }
  }

  /** The parameters come in the order of keys, which the server sorts. */
  method BuildRequest(capability: string, number: nat, method_: string, keys: seq<string>, params: Fields)
      returns (body: string)
    requires Lists(keys, params)
    ensures body == Build(capability, number, method_, keys, params)
  {
    var head := Line("capability", capability) + Line("id", RequestId(number)) + Line("method", method_);
    body := head;
    var n := 0;
    while n < |keys|
      invariant 0 <= n <= |keys|
      invariant body == head + ParamLines(keys[..n], params)
    {
      ParamLinesGrow(keys, n, params);
      body := body + Line(keys[n], params[keys[n]]);
      n := n + 1;
    }
    assert keys[..n] == keys;
    body := body + "\n";
  }

  // ---------------------------------------------------------------------- round trip

  predicate GoodKey(key: string) {
    '=' !in key && '\n' !in key
  }

  ghost predicate Clean(fields: Fields) {
    forall k :: k in fields ==> GoodKey(k) && '\n' !in fields[k]
  }

  /** What a caller can check before sending: the exact condition for the round trip. */
  ghost predicate Sendable(capability: string, method_: string, params: Fields) {
    && capability != "" && '\n' !in capability && !EndsInReturn(capability)
    && method_ != "" && '\n' !in method_ && !EndsInReturn(method_)
    && (forall k :: k in params ==>
          GoodKey(k) && k !in RESERVED && '\n' !in params[k] && !EndsInReturn(params[k]))
  }

  /** Nothing the parser reads out of lines holds a newline, and no key holds '='. */
  lemma {:induction false} ReadFieldsClean(body: string, fields: Fields)
    requires Clean(fields)
    ensures ReadFields(body, fields).Some? ==> Clean(ReadFields(body, fields).value)
    decreases |body|
  {
    if body != "" {
      var line := FirstLine(body);
      FindIs(body, '\n');
      FindIs(line, '=');
      if ReadLine(line).Field? {
        ReadFieldsClean(AfterLine(body), fields[ReadLine(line).key := ReadLine(line).value]);
      }
    }
  }

  lemma {:induction false} FindAt(a: string, c: char, b: string)
    requires c !in a
    ensures Find(a + [c] + b, c) == |a|
  {
    if a != "" {
      FindAt(a[1..], c, b);
      assert (a + [c] + b)[1..] == a[1..] + [c] + b;
    }
  }

  /** One printed line is read back as one field, less a carriage return at its end. */
  lemma {:induction false} ReadPrinted(key: string, value: string, rest: string, fields: Fields)
    requires GoodKey(key) && '\n' !in value
    ensures ReadFields(Line(key, value) + rest, fields) == ReadFields(rest, fields[key := StripReturn(value)])
  {
    var text := key + "=" + value;
    var body := Line(key, value) + rest;
    assert body == text + ['\n'] + rest;
    FindAt(text, '\n', rest);
    assert body[..|text|] == text && body[|text| + 1..] == rest;
    var line := StripReturn(text);
    assert line == key + ['='] + StripReturn(value);
    FindAt(key, '=', StripReturn(value));
    assert line[..|key|] == key && line[|key| + 1..] == StripReturn(value);
  }

  ghost function Stripped(keys: seq<string>, params: Fields, fields: Fields): Fields
    requires forall k :: k in keys ==> k in params
  {
    if keys == [] then fields else Stripped(keys[1..], params, fields[keys[0] := StripReturn(params[keys[0]])])
  }

  lemma {:induction false} ReadParams(keys: seq<string>, params: Fields, fields: Fields)
    requires forall k :: k in keys ==> k in params
    requires forall k :: k in keys ==> GoodKey(k) && '\n' !in params[k]
    ensures ReadFields(ParamLines(keys, params) + "\n", fields) == Some(Stripped(keys, params, fields))
  {
    if keys == [] {
      assert ParamLines(keys, params) + "\n" == "\n";
      assert "\n"[..Find("\n", '\n')] == "";
    } else {
      var rest := ParamLines(keys[1..], params) + "\n";
      assert ParamLines(keys, params) + "\n" == Line(keys[0], params[keys[0]]) + rest;
      ReadPrinted(keys[0], params[keys[0]], rest, fields);
      ReadParams(keys[1..], params, fields[keys[0] := StripReturn(params[keys[0]])]);
    }
  }

  lemma {:induction false} StrippedIs(keys: seq<string>, params: Fields, fields: Fields)
    requires forall k :: k in keys ==> k in params
    ensures var r := Stripped(keys, params, fields);
            && r.Keys == fields.Keys + (set k | k in keys)
            && forall k :: k in r ==> r[k] == if k in keys then StripReturn(params[k]) else fields[k]
  {
    if keys != [] {
      StrippedIs(keys[1..], params, fields[keys[0] := StripReturn(params[keys[0]])]);
    }
  }

  lemma {:induction false} IdIsPlain(number: nat)
    ensures '\n' !in RequestId(number) && StripReturn(RequestId(number)) == RequestId(number)
  {
    DecimalRoundTrip(number);
    assert RequestId(number)[|RequestId(number)| - 1] == Decimal(number)[|Decimal(number)| - 1];
  }

  ghost function Head(capability: string, number: nat, method_: string): Fields {
    map["capability" := StripReturn(capability), "id" := RequestId(number), "method" := StripReturn(method_)]
  }

  /** What the parser reads from any printed request that holds no stray newline or '='. */
  lemma {:induction false} ReadBuilt(
    capability: string, number: nat, method_: string, keys: seq<string>, params: Fields)
    requires Lists(keys, params) && Clean(params) && '\n' !in capability && '\n' !in method_
    ensures ReadFields(Build(capability, number, method_, keys, params), map[])
            == Some(Stripped(keys, params, Head(capability, number, method_)))
  {
    var tail := ParamLines(keys, params) + "\n";
    IdIsPlain(number);
    ReadPrinted("capability", capability, Line("id", RequestId(number)) + (Line("method", method_) + tail), map[]);
    var one: Fields := map["capability" := StripReturn(capability)];
    ReadPrinted("id", RequestId(number), Line("method", method_) + tail, one);
    ReadPrinted("method", method_, tail, one["id" := RequestId(number)]);
    assert one["id" := RequestId(number)]["method" := StripReturn(method_)] == Head(capability, number, method_);
    ReadParams(keys, params, Head(capability, number, method_));
  }

  /** What comes back must have been free of stray newlines, '=' and reserved keys to begin with. */
  lemma {:induction false} AcceptedIsClean(body: string, capability: string)
    requires Parse(body, capability).Accepted?
    ensures var p := Parse(body, capability);
            && capability != "" && '\n' !in capability
            && p.method_ != "" && '\n' !in p.method_
            && Clean(p.params) && forall k :: k in p.params ==> k !in RESERVED
  {
    ReadFieldsClean(body, map[]);
  }

  ghost function StrippedParams(params: Fields): Fields {
    map k | k in params :: StripReturn(params[k])
  }

  lemma {:induction false} ParseBuilt(
    capability: string, number: nat, method_: string, keys: seq<string>, params: Fields)
    requires Lists(keys, params) && Clean(params) && '\n' !in capability && '\n' !in method_
    requires forall k :: k in params ==> k !in RESERVED
    ensures Parse(Build(capability, number, method_, keys, params), capability)
            == if capability == "" || EndsInReturn(capability) then Unauthorized
               else if StripReturn(method_) == "" then Malformed
               else Accepted(RequestId(number), StripReturn(method_), StrippedParams(params))
  {
    ReadBuilt(capability, number, method_, keys, params);
    BuiltFields(capability, number, method_, keys, params);
  }

  lemma {:induction false} BuiltFields(
    capability: string, number: nat, method_: string, keys: seq<string>, params: Fields)
    requires Lists(keys, params) && forall k :: k in params ==> k !in RESERVED
    ensures var fields := Stripped(keys, params, Head(capability, number, method_));
            && "capability" in fields && fields["capability"] == StripReturn(capability)
            && "method" in fields && fields["method"] == StripReturn(method_)
            && "id" in fields && fields["id"] == RequestId(number)
            && fields - RESERVED == StrippedParams(params)
  {
    var head := Head(capability, number, method_);
    var fields := Stripped(keys, params, head);
    StrippedIs(keys, params, head);
    HeadKeys(capability, number, method_);
    assert (fields - RESERVED).Keys == params.Keys;
  }

  lemma {:induction false} HeadKeys(capability: string, number: nat, method_: string)
    ensures var head := Head(capability, number, method_);
            && head.Keys == RESERVED
            && head["capability"] == StripReturn(capability)
            && head["method"] == StripReturn(method_)
            && head["id"] == RequestId(number)
  {
    assert |"capability"| == 10 && |"method"| == 6 && |"id"| == 2;
  }

  lemma {:induction false} StrippedParamsSame(params: Fields)
    ensures StrippedParams(params) == params <==> forall k :: k in params ==> !EndsInReturn(params[k])
  {
    if StrippedParams(params) == params {
      forall k | k in params ensures !EndsInReturn(params[k]) {
        assert StrippedParams(params)[k] == params[k];
      }
    }
  }

  lemma {:induction false} CleanRoundTrip(
    capability: string, number: nat, method_: string, keys: seq<string>, params: Fields)
    requires Lists(keys, params) && Clean(params) && '\n' !in capability && '\n' !in method_
    requires forall k :: k in params ==> k !in RESERVED
    ensures Parse(Build(capability, number, method_, keys, params), capability) == Accepted(RequestId(number), method_, params)
            <==> Sendable(capability, method_, params)
  {
    ParseBuilt(capability, number, method_, keys, params);
    StrippedParamsSame(params);
  }

  /** Parsing a built request gives back its id, method and parameters exactly when the
      request was sendable. */
  lemma {:induction false} RoundTrip(
    capability: string, number: nat, method_: string, keys: seq<string>, params: Fields)
    requires Lists(keys, params)
    ensures Parse(Build(capability, number, method_, keys, params), capability) == Accepted(RequestId(number), method_, params)
            <==> Sendable(capability, method_, params)
  {
    var body := Build(capability, number, method_, keys, params);
    if Parse(body, capability) == Accepted(RequestId(number), method_, params) {
      AcceptedIsClean(body, capability);
      CleanRoundTrip(capability, number, method_, keys, params);
    } else if Sendable(capability, method_, params) {
      CleanRoundTrip(capability, number, method_, keys, params);
    }
  }

  // ------------------------------------------------------------------ requests of any kind

  datatype Pair = Pair(key: string, value: string)

  function Lines(pairs: seq<Pair>): string {
    if pairs == [] then "" else Line(pairs[0].key, pairs[0].value) + Lines(pairs[1..])
  }

  /** What the last line for a key says, less a carriage return at its end. */
  function LastValue(pairs: seq<Pair>, key: string): Option<string> {
    if pairs == [] then None
    else if pairs[|pairs| - 1].key == key then Some(StripReturn(pairs[|pairs| - 1].value))
    else LastValue(pairs[..|pairs| - 1], key)
  }

  predicate CleanPairs(pairs: seq<Pair>) {
    forall i :: 0 <= i < |pairs| ==> GoodKey(pairs[i].key) && '\n' !in pairs[i].value
  }

  function Overwritten(pairs: seq<Pair>, fields: Fields): Fields {
    if pairs == [] then fields
    else Overwritten(pairs[1..], fields[pairs[0].key := StripReturn(pairs[0].value)])
  }

  lemma {:induction false} ReadPairs(pairs: seq<Pair>, rest: string, fields: Fields)
    requires CleanPairs(pairs)
    ensures ReadFields(Lines(pairs) + rest, fields) == ReadFields(rest, Overwritten(pairs, fields))
  {
    if pairs == [] {
      assert Lines(pairs) + rest == rest;
    } else {
      var more := Lines(pairs[1..]) + rest;
      assert Lines(pairs) + rest == Line(pairs[0].key, pairs[0].value) + more;
      ReadPrinted(pairs[0].key, pairs[0].value, more, fields);
      ReadPairs(pairs[1..], rest, fields[pairs[0].key := StripReturn(pairs[0].value)]);
    }
  }

  lemma {:induction false} OverwrittenMore(pairs: seq<Pair>, last: Pair, fields: Fields)
    ensures Overwritten(pairs + [last], fields) == Overwritten(pairs, fields)[last.key := StripReturn(last.value)]
  {
    if pairs == [] {
      assert ([] + [last])[1..] == [];
    } else {
      assert (pairs + [last])[1..] == pairs[1..] + [last];
      OverwrittenMore(pairs[1..], last, fields[pairs[0].key := StripReturn(pairs[0].value)]);
    }
  }

  lemma {:induction false} OverwrittenIs(pairs: seq<Pair>, key: string)
    ensures key in Overwritten(pairs, map[]) <==> LastValue(pairs, key).Some?
    ensures key in Overwritten(pairs, map[]) ==> Overwritten(pairs, map[])[key] == LastValue(pairs, key).value
  {
    if pairs != [] {
      var init, last := pairs[..|pairs| - 1], pairs[|pairs| - 1];
      assert init + [last] == pairs;
      OverwrittenMore(init, last, map[]);
      OverwrittenIs(init, key);
    }
  }

  /** Behind the lines nothing, or an empty line and then anything: neither changes what was read. */
  predicate Ends(rest: string) {
    rest == "" || FirstLine(rest) == ""
  }

  /** A line that is not empty and has no '=', and then anything. */
  predicate Spoils(rest: string) {
    rest != "" && FirstLine(rest) != "" && '=' !in FirstLine(rest)
  }

  lemma {:induction false} NoSeparatorIn(line: string)
    requires '=' !in line
    ensures Find(line, '=') == |line|
  {
    FindIs(line, '=');
  }

  /** Any request that consists of lines `key=value` in any order, repeated or not: the last line of a key
      counts; it is unauthorized exactly when the last capability is missing, wrong, or none
      is expected; malformed when there is no method; and otherwise accepted, with its id, or
      none, and all other keys as parameters. What follows an empty line is ignored; a line
      without a separator spoils the request whoever sends it. */
  lemma {:induction false} ParseExactly(pairs: seq<Pair>, rest: string, capability: string)
    requires CleanPairs(pairs) && (Ends(rest) || Spoils(rest))
    ensures var p := Parse(Lines(pairs) + rest, capability);
            var method_, id := LastValue(pairs, "method"), LastValue(pairs, "id");
            if Spoils(rest) then p == Malformed
            else if capability == "" || LastValue(pairs, "capability") != Some(capability) then p == Unauthorized
            else if method_.None? || method_.value == "" then p == Malformed
            else
              && p.Accepted? && p.method_ == method_.value && p.id == (if id.Some? then id.value else "")
              && forall k :: (k in p.params <==> k !in RESERVED && LastValue(pairs, k).Some?)
                             && (k in p.params ==> p.params[k] == LastValue(pairs, k).value)
  {
    ReadPairs(pairs, rest, map[]);
    if Spoils(rest) {
      NoSeparatorIn(FirstLine(rest));
    } else {
      forall k ensures (k in Overwritten(pairs, map[]) <==> LastValue(pairs, k).Some?)
                       && (k in Overwritten(pairs, map[]) ==> Overwritten(pairs, map[])[k] == LastValue(pairs, k).value) {
        OverwrittenIs(pairs, k);
      }
    }
  }

  /** A sendable request built with one capability is refused as unauthorized under any other. */
  lemma {:induction false} OtherCapabilityRefused(
    capability: string, other: string, number: nat, method_: string, keys: seq<string>, params: Fields)
    requires Lists(keys, params) && Sendable(capability, method_, params) && other != capability
    ensures Parse(Build(capability, number, method_, keys, params), other) == Unauthorized
  {
    ReadBuilt(capability, number, method_, keys, params);
    StrippedIs(keys, params, Head(capability, number, method_));
  }
}
