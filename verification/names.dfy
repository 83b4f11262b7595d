/** Subjects and consumer names, as they are written and as they are read back. */
module Names {
  import opened Splitting
  import opened Wrappers

  // ---------- the subjects of the API ----------

  function ModelTopic(prefix: string, lattice: string, operation: string, name: Option<string>): string {
    prefix + "." + lattice + ".model." + operation + if name.Some? then "." + name.value else ""
  }

  datatype ParsedSubject = ParsedSubject(
    account: Option<string>,
    lattice: string,
    category: string,
    operation: string,
    name: Option<string>)

  datatype SubjectError = NoAccount | NoCategory | NoOperation | ExtraComponents

  predicate StartsWith(s: string, p: string) {
    |p| <= |s| && s[..|p|] == p
  }

  /** Removes the pattern as often as it is found at the start. */
  function TrimStartMatches(s: string, p: string): string
    decreases |s|
  {
    if p != "" && StartsWith(s, p) then TrimStartMatches(s[|p|..], p) else s
  }

  function ParseParts(account: Option<string>, parts: seq<string>): Result<ParsedSubject, SubjectError>
    requires parts != []
  {
    if |parts| < 2 then Err(NoCategory)
    else if |parts| < 3 then Err(NoOperation)
    else if |parts| > 4 then Err(ExtraComponents)
    else Ok(ParsedSubject(account, parts[0], parts[1], parts[2], if |parts| == 4 then Some(parts[3]) else None))
  }

  function ParseSubject(prefix: string, multitenant: bool, subject: string): Result<ParsedSubject, SubjectError> {
    var parts := Split(subject, '.');
    if multitenant && |parts| == 1 then Err(NoAccount)
    else
      var account := if multitenant then Some(parts[0]) else None;
      var rest := if multitenant then Join(parts[1..], '.') else subject;
      ParseParts(account, Split(TrimStartMatches(TrimStartMatches(rest, prefix), "."), '.'))
  }

  /** The form in which the server keeps its prefix. */
  predicate IsTrimmed(prefix: string) {
    prefix != "" && prefix[0] != '.' && prefix[|prefix| - 1] != '.'
  }

  lemma {:induction false} TrimDots(s: string)
    requires s != "" && s[0] != '.'
    ensures TrimStartMatches(s, ".") == s
    ensures TrimStartMatches("." + s, ".") == s
  {
    assert ("." + s)[1..] == s;
    assert s[..1] == [s[0]];
    assert StartsWith("." + s, ".");
  }

  /** The prefix goes once, however the rest begins, because a dot follows it. */
  lemma TrimPrefix(prefix: string, rest: string)
    requires IsTrimmed(prefix)
    ensures TrimStartMatches(prefix + "." + rest, prefix) == "." + rest
  {
    var s := prefix + "." + rest;
    assert s[..|prefix|] == prefix && s[|prefix|..] == "." + rest;
    assert !StartsWith("." + rest, prefix);
  }

  function Tail(operation: string, name: Option<string>): string {
    "model." + operation + if name.Some? then "." + name.value else ""
  }

  lemma TopicTail(prefix: string, lattice: string, operation: string, name: Option<string>)
    ensures ModelTopic(prefix, lattice, operation, name) == prefix + "." + (lattice + "." + Tail(operation, name))
  {}

  lemma TailParts(operation: string, name: Option<string>)
    requires '.' !in operation
    ensures Split(Tail(operation, name), '.') == ["model", operation] + if name.Some? then Split(name.value, '.') else []
  {
    var rest := operation + if name.Some? then "." + name.value else "";
    assert Tail(operation, name) == "model" + ['.'] + rest;
    SplitAt("model", '.', rest);
    if name.Some? {
      SplitAt(operation, '.', name.value);
      assert rest == operation + ['.'] + name.value;
      assert ["model"] + ([operation] + Split(name.value, '.')) == ["model", operation] + Split(name.value, '.');
    } else {
      assert rest == operation;
      SplitFree(operation, '.');
    }
  }

  /** What the parser sees of a topic for a lattice. */
  function Seen(lattice: string, operation: string, name: Option<string>): string {
    TrimStartMatches("." + (lattice + "." + Tail(operation, name)), ".")
  }

  lemma ParseTopic(prefix: string, lattice: string, operation: string, name: Option<string>)
    requires IsTrimmed(prefix)
    ensures ParseSubject(prefix, false, ModelTopic(prefix, lattice, operation, name)) ==
            ParseParts(None, Split(Seen(lattice, operation, name), '.'))
  {
    TopicTail(prefix, lattice, operation, name);
    TrimPrefix(prefix, lattice + "." + Tail(operation, name));
  }

  lemma SeenParts(lattice: string, operation: string, name: Option<string>)
    requires lattice != "" && '.' !in lattice && '.' !in operation
    ensures Split(Seen(lattice, operation, name), '.') ==
            [lattice, "model", operation] + if name.Some? then Split(name.value, '.') else []
  {
    assert lattice[0] in lattice;
    var rest := lattice + "." + Tail(operation, name);
    assert rest[0] == lattice[0];
    TrimDots(rest);
    SplitAt(lattice, '.', Tail(operation, name));
    TailParts(operation, name);
  }

  lemma NoLatticeSeen(operation: string, name: Option<string>)
    requires '.' !in operation
    ensures Split(Seen("", operation, name), '.')[0] == "model"
  {
    var tail := Tail(operation, name);
    assert "" + "." + tail == "." + tail;
    assert tail[0] == 'm';
    TrimDots(tail);
    assert ("." + ("." + tail))[1..] == "." + tail && StartsWith("." + ("." + tail), ".");
    TailParts(operation, name);
  }

  /** A client's topic is read back as what it was made for exactly when the lattice is a single non-empty
      component and the name has no dot. */
  lemma TopicRoundTripIff(prefix: string, lattice: string, operation: string, name: Option<string>)
    requires IsTrimmed(prefix) && '.' !in operation
    ensures ParseSubject(prefix, false, ModelTopic(prefix, lattice, operation, name)) ==
            Ok(ParsedSubject(None, lattice, "model", operation, name)) <==>
            (lattice != "" && '.' !in lattice && (name.Some? ==> '.' !in name.value))
  {
    ParseTopic(prefix, lattice, operation, name);
    var parts := Split(Seen(lattice, operation, name), '.');
    if lattice == "" {
      NoLatticeSeen(operation, name);
    } else if '.' !in lattice {
      SeenParts(lattice, operation, name);
      if name.Some? && '.' !in name.value { SplitFree(name.value, '.'); }
    } else {
      assert parts[0] != lattice;
    }
  }

  /** Behind an account the same holds for every account of one component. */
  lemma MultitenantRoundTripIff(prefix: string, account: string, lattice: string, operation: string, name: Option<string>)
    requires IsTrimmed(prefix) && '.' !in operation && '.' !in account
    ensures ParseSubject(prefix, true, account + "." + ModelTopic(prefix, lattice, operation, name)) ==
            Ok(ParsedSubject(Some(account), lattice, "model", operation, name)) <==>
            (lattice != "" && '.' !in lattice && (name.Some? ==> '.' !in name.value))
  {
    var topic := ModelTopic(prefix, lattice, operation, name);
    SplitAt(account, '.', topic);
    var parts := Split(account + ['.'] + topic, '.');
    assert parts == [account] + Split(topic, '.');
    assert parts[1..] == Split(topic, '.');
    JoinSplit(topic, '.');
    ParseTopic(prefix, lattice, operation, name);
    TopicRoundTripIff(prefix, lattice, operation, name);
  }

  /** As for every lattice id with a dot in it. */
  lemma DottedLatticeIsLost(prefix: string, a: string, b: string, operation: string, name: Option<string>)
    requires IsTrimmed(prefix) && '.' !in operation
    ensures ParseSubject(prefix, false, ModelTopic(prefix, a + "." + b, operation, name)) !=
            Ok(ParsedSubject(None, a + "." + b, "model", operation, name))
  {
    assert (a + "." + b)[|a|] == '.';
    TopicRoundTripIff(prefix, a + "." + b, operation, name);
  }

  lemma {:induction false} JoinAppendSplit(parts: seq<string>)
    requires parts != [] && forall i :: 0 <= i < |parts| ==> '.' !in parts[i]
    ensures Split(Join(parts, '.'), '.') == parts
  {
    if |parts| == 1 {
      SplitFree(parts[0], '.');
    } else {
      JoinAppendSplit(parts[1..]);
      SplitAt(parts[0], '.', Join(parts[1..], '.'));
    }
  }

  /** What follows the prefix has three parts, or four with a name; with fewer the category or the operation is
      missing, with more some are too many. */
  lemma SubjectParts(prefix: string, parts: seq<string>)
    requires IsTrimmed(prefix) && parts != [] && parts[0] != "" && forall i :: 0 <= i < |parts| ==> '.' !in parts[i]
    ensures ParseSubject(prefix, false, prefix + "." + Join(parts, '.')) ==
            if |parts| == 1 then Err(NoCategory)
            else if |parts| == 2 then Err(NoOperation)
            else if |parts| == 3 then Ok(ParsedSubject(None, parts[0], parts[1], parts[2], None))
            else if |parts| == 4 then Ok(ParsedSubject(None, parts[0], parts[1], parts[2], Some(parts[3])))
            else Err(ExtraComponents)
  {
    var rest := Join(parts, '.');
    assert rest != "" && rest[0] == parts[0][0] && parts[0][0] in parts[0];
    TrimPrefix(prefix, rest);
    TrimDots(rest);
    JoinAppendSplit(parts);
  }

  /** A subject without a dot has no account. */
  lemma NoAccountBefore(prefix: string, subject: string)
    requires '.' !in subject
    ensures ParseSubject(prefix, true, subject) == Err(NoAccount)
  {
    SplitFree(subject, '.');
  }

  // ---------- consumer names ----------

  function ConsumerName(prefix: string, lattice: string, account: Option<string>): string {
    if account.Some? then prefix + "-" + lattice + "_" + account.value else prefix + "-" + lattice
  }

  function ExtractLatticeAndMultitenant(consumer: string): (string, Option<string>) {
    var parts := Split(consumer, '-')[1..];
    var remainder := if parts == [] then "" else Join(parts, '-');
    var both := Split(remainder, '_');
    (both[0], if |both| > 1 then Some(both[1]) else None)
  }

  lemma Remainder(prefix: string, rest: string)
    requires '-' !in prefix
    ensures var both := Split(rest, '_');
            ExtractLatticeAndMultitenant(prefix + "-" + rest) == (both[0], if |both| > 1 then Some(both[1]) else None)
  {
    SplitAt(prefix, '-', rest);
    assert prefix + ['-'] + rest == prefix + "-" + rest;
    assert Split(prefix + "-" + rest, '-')[1..] == Split(rest, '-');
    JoinSplit(rest, '-');
  }

  /** A consumer's name is read back as the lattice and account it was made for exactly when neither has an
      underscore. Dashes are harmless. */
  lemma ConsumerRoundTripIff(prefix: string, lattice: string, account: Option<string>)
    requires '-' !in prefix
    ensures ExtractLatticeAndMultitenant(ConsumerName(prefix, lattice, account)) == (lattice, account) <==>
            ('_' !in lattice && (account.Some? ==> '_' !in account.value))
  {
    var rest := if account.Some? then lattice + "_" + account.value else lattice;
    assert ConsumerName(prefix, lattice, account) == prefix + "-" + rest by {
      if account.Some? {
        assert prefix + "-" + lattice + "_" + account.value == prefix + "-" + (lattice + "_" + account.value);
      }
    }
    Remainder(prefix, rest);
    if '_' !in lattice {
      if account.Some? {
        SplitAt(lattice, '_', account.value);
        assert lattice + ['_'] + account.value == rest;
        if '_' !in account.value { SplitFree(account.value, '_'); }
      } else {
        SplitFree(lattice, '_');
      }
    }
  }

  /** As for a lattice id with an underscore: its consumer is the one of another lattice, with an account. */
  lemma UnderscoredLatticeIsLost(prefix: string, lattice: string, rest: string)
    requires '-' !in prefix
    ensures ConsumerName(prefix, lattice + "_" + rest, None) == ConsumerName(prefix, lattice, Some(rest))
    ensures ExtractLatticeAndMultitenant(ConsumerName(prefix, lattice + "_" + rest, None)) != (lattice + "_" + rest, None)
  {
    var whole := lattice + "_" + rest;
    assert prefix + "-" + whole == prefix + "-" + lattice + "_" + rest;
    assert whole[|lattice|] == '_';
    ConsumerRoundTripIff(prefix, whole, None);
  }
}
