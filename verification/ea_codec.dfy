/** The text protocol of the MT5 expert advisor: fields joined by carets. */
module EaCodec {
  import opened Prelude

  const CARET := '^'

  /** The fields of a message: always at least one. */
  function Split(s: string): (r: seq<string>)
    ensures r != []
    ensures forall f | f in r :: CARET !in f
  {
    if s == [] then [[]]
    else
      var rest := Split(s[1..]);
      if s[0] == CARET then [[]] + rest else [[s[0]] + rest[0]] + rest[1..]
  }

  function Join(fields: seq<string>): string {
    if fields == [] then []
    else if |fields| == 1 then fields[0]
    else fields[0] + [CARET] + Join(fields[1..])
  }

  /** A message begun with a caret-free field and a caret splits there. */
  lemma {:induction false} SplitField(f: string, rest: string)
    requires CARET !in f
    ensures Split(f + [CARET] + rest) == [f] + Split(rest)
  {
    var s := f + [CARET] + rest;
    if f == [] {
      assert s == [CARET] + rest;
      assert s[1..] == rest;
    } else {
      assert s[1..] == f[1..] + [CARET] + rest;
      SplitField(f[1..], rest);
      assert [s[0]] + f[1..] == f;
    }
  }

  lemma {:induction false} SplitPlain(f: string)
    requires CARET !in f
    ensures Split(f) == [f]
  {
    if f != [] {
      SplitPlain(f[1..]);
      assert [f[0]] + f[1..] == f;
    }
  }

  /** Splitting undoes joining exactly when there is a field and none contains a caret. */
  lemma {:induction false} SplitJoin(fields: seq<string>)
    ensures Split(Join(fields)) == fields <==> fields != [] && forall f | f in fields :: '^' !in f
    decreases |fields|
  {
    if fields != [] && forall f | f in fields :: '^' !in f {
      if |fields| == 1 {
        SplitPlain(fields[0]);
        assert fields == [fields[0]];
      } else {
        SplitJoin(fields[1..]);
        SplitField(fields[0], Join(fields[1..]));
        assert fields == [fields[0]] + fields[1..];
      }
    }
  }

  /** Joining undoes splitting, always. */
  lemma {:induction false} JoinSplit(s: string)
    ensures Join(Split(s)) == s
  {
    if s != [] {
      var rest := Split(s[1..]);
      JoinSplit(s[1..]);
      if s[0] == CARET {
        assert ([[]] + rest)[1..] == rest;
        assert Join([[]] + rest) == [CARET] + Join(rest);
      } else {
        var first := [s[0]] + rest[0];
        assert ([first] + rest[1..])[1..] == rest[1..];
        assert Join([first] + rest[1..]) == [s[0]] + Join(rest);
      }
    }
  }

  datatype Parsed = Response(command: string, subCommand: string, data: seq<string>) | TooFewParts | HiddenDelimiter

  function MakeMessage(command: string, subCommand: string, parameters: seq<string>): string {
    command + [CARET] + subCommand + [CARET] + Join(parameters)
  }

  function NonEmpty(fields: seq<string>): seq<string> {
    Filter((f: string) => f != [], fields)
  }

  function ParseResponseMessage(message: string): Parsed {
    var parts := Split(message);
    if |parts| < 3 then TooFewParts
    else
      var data := NonEmpty(parts[2..]);
      if [] in data then HiddenDelimiter else Response(parts[0], parts[1], data)
  }

  function Carets(s: string): nat {
    if s == [] then 0 else (if s[0] == '^' then 1 else 0) + Carets(s[1..])
  }

  lemma {:induction false} SplitCounts(s: string)
    ensures |Split(s)| == Carets(s) + 1
  {
    if s != [] {
      SplitCounts(s[1..]);
    }
  }

  /** Parsing fails exactly on a message with fewer than two carets; the later check for empty fields can
      never fail, since they have been dropped. */
  lemma ParseFailsExactly(message: string)
    ensures ParseResponseMessage(message) == TooFewParts <==> Carets(message) < 2
    ensures ParseResponseMessage(message) != HiddenDelimiter
  {
    SplitCounts(message);
  }

  predicate Plain(s: string) {
    '^' !in s
  }

  lemma {:induction false} NonEmptyKeepsAll(fields: seq<string>)
    ensures NonEmpty(fields) == fields <==> [] !in fields
  {
    if fields != [] {
      NonEmptyKeepsAll(fields[1..]);
      assert fields == [fields[0]] + fields[1..];
    }
  }

  /** The fields of a made message, in order: the command, the sub-command and the parameters, or one empty
      field when there are none. */
  lemma MadeFields(command: string, subCommand: string, parameters: seq<string>)
    requires Plain(command) && Plain(subCommand) && forall p | p in parameters :: Plain(p)
    ensures Split(MakeMessage(command, subCommand, parameters)) ==
            [command, subCommand] + if parameters == [] then [""] else parameters
  {
    var message, tail := MakeMessage(command, subCommand, parameters), Join(parameters);
    assert message == command + [CARET] + (subCommand + [CARET] + tail);
    SplitField(command, subCommand + [CARET] + tail);
    SplitField(subCommand, tail);
    if parameters == [] {
      assert tail == [];
    } else {
      SplitJoin(parameters);
    }
  }

  /** A made message parses to its command, sub-command and non-empty parameters, when no part has a caret. */
  lemma ParseMade(command: string, subCommand: string, parameters: seq<string>)
    requires Plain(command) && Plain(subCommand) && forall p | p in parameters :: Plain(p)
    ensures ParseResponseMessage(MakeMessage(command, subCommand, parameters)) ==
            Response(command, subCommand, NonEmpty(parameters))
  {
    var fields := if parameters == [] then [""] else parameters;
    MadeFields(command, subCommand, parameters);
    assert ([command, subCommand] + fields)[2..] == fields;
    if parameters == [] {
      assert NonEmpty([[]]) == [];
    }
  }

  /** Whatever parses has caret-free parts and no empty data. */
  lemma ParsedIsPlain(message: string)
    ensures var r := ParseResponseMessage(message);
            r.Response? ==> Plain(r.command) && Plain(r.subCommand) && forall d | d in r.data :: Plain(d) && d != []
  {
    var parts := Split(message);
    assert forall i | 0 <= i < |parts| :: parts[i] in parts;
  }

  /** The round trip holds exactly for parts without carets and parameters that are not empty. */
  lemma RoundTrip(command: string, subCommand: string, parameters: seq<string>)
    ensures ParseResponseMessage(MakeMessage(command, subCommand, parameters)) ==
            Response(command, subCommand, parameters)
            <==> Plain(command) && Plain(subCommand) && forall p | p in parameters :: Plain(p) && p != []
  {
    ParsedIsPlain(MakeMessage(command, subCommand, parameters));
    if Plain(command) && Plain(subCommand) && forall p | p in parameters :: Plain(p) {
      ParseMade(command, subCommand, parameters);
      NonEmptyKeepsAll(parameters);
    }
  }
}
