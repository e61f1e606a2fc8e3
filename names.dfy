/** Event and command names: case-insensitive comparison and the derived names. */
module Names {
  import opened Wrappers

  /** Lower-casing of one character; ASCII only. */
  function Lower(c: char): char {
    if 'A' <= c <= 'Z' then (c as int + 32) as char else c
  }

  /** `str.casefold`, restricted to ASCII letters. */
  function Casefold(s: string): (r: string)
    ensures |r| == |s|
  {
    seq(|s|, i requires 0 <= i < |s| => Lower(s[i]))
  }

  /** The name test of `get_event`/`get_command`. */
  predicate NameMatches(candidate: string, name: string, caseSensitive: bool) {
    if caseSensitive then candidate == name else Casefold(candidate) == Casefold(name)
  }

  const ErrorHandlerName: string := "<error_handler>"

  function BeforeName(name: string): string { "<before:" + name + ">" }

  function AfterName(name: string): string { "<after:" + name + ">" }

  /** `Command._COMMAND_EVENT_FORMAT.format(name)` */
  function CommandEventName(commandName: string): string { "<command:" + commandName + ">" }

  /** A command name is either the one given or, when that is missing or empty, the coroutine's. */
  function CommandName(given: string, coroutineName: string): (r: string)
    ensures given != "" ==> r == given
    ensures given == "" ==> r == coroutineName
  {
    if given == "" then coroutineName else given
  }

  lemma CasefoldIdempotent(s: string)
    ensures Casefold(Casefold(s)) == Casefold(s)
  {
  }

  /** An exact match is also a case-insensitive one. */
  lemma SensitiveMatchImpliesInsensitive(candidate: string, name: string)
    ensures NameMatches(candidate, name, true) ==> NameMatches(candidate, name, false)
  {
  }

  lemma CasefoldConcat(a: string, b: string)
    ensures Casefold(a + b) == Casefold(a) + Casefold(b)
  {
    assert forall i | 0 <= i < |a + b| :: Casefold(a + b)[i] == (Casefold(a) + Casefold(b))[i];
  }

  /** The event name of a command keeps the command name recoverable: the format is injective. */
  lemma CommandEventNameInjective(a: string, b: string)
    ensures CommandEventName(a) == CommandEventName(b) ==> a == b
  {
    if CommandEventName(a) == CommandEventName(b) {
      assert a == CommandEventName(a)[9..|CommandEventName(a)| - 1];
      assert b == CommandEventName(b)[9..|CommandEventName(b)| - 1];
    }
  }

  /**
   * Case-insensitive comparison of command event names agrees with that of the command names,
   * since the format's own characters are already lower-case.
   */
  lemma CommandEventNameCasefold(a: string, b: string)
    ensures NameMatches(CommandEventName(a), CommandEventName(b), false) <==> NameMatches(a, b, false)
  {
    CasefoldConcat("<command:" + a, ">");
    CasefoldConcat("<command:", a);
    CasefoldConcat("<command:" + b, ">");
    CasefoldConcat("<command:", b);
    assert Casefold("<command:") == "<command:";
    assert Casefold(">") == ">";
    CommandEventNameInjective(Casefold(a), Casefold(b));
  }

  /**
   * `next(filter(checker, registry), None)` over the registry's names: the position of the
   * first name that matches.
   */
  function FindName(names: seq<string>, name: string, caseSensitive: bool): (r: Option<nat>)
    ensures r.None? <==> forall j :: 0 <= j < |names| ==> !NameMatches(names[j], name, caseSensitive)
    ensures r.Some? ==> r.value < |names| && NameMatches(names[r.value], name, caseSensitive)
    ensures r.Some? ==> forall j :: 0 <= j < r.value ==> !NameMatches(names[j], name, caseSensitive)
  {
    if names == [] then None
    else if NameMatches(names[0], name, caseSensitive) then Some(0)
    else
      match FindName(names[1..], name, caseSensitive)
      case None => None
      case Some(i) => Some(i + 1)
  }

  /**
   * The name carried by `EventAlreadyExists`/`CommandAlreadyExists` as the constructors build
   * it: they look the clashing entry up again, this time case-sensitively, and read its name.
   * `None` stands for the `AttributeError` of reading a name off `None`.
   */
  function ExistingNameAsWritten(names: seq<string>, name: string): Option<string> {
    match FindName(names, name, true)
    case None => None
    case Some(i) => Some(names[i])
  }

  /** A name that clashes only up to case makes the exception's own lookup come back empty. */
  lemma ExistingNameAsWrittenMissesCaseVariant()
    ensures FindName(["Foo"], "foo", false) == Some(0)
    ensures ExistingNameAsWritten(["Foo"], "foo") == None
  {
    assert NameMatches("Foo", "foo", false) by {
      assert Casefold("Foo") == "foo" == Casefold("foo");
    }
  }

  /** The clashing name, found with the same case-insensitive test that detected the clash. */
  function ExistingName(names: seq<string>, name: string): (r: Option<string>)
    ensures r.Some? <==> exists j :: 0 <= j < |names| && NameMatches(names[j], name, false)
    ensures r.Some? ==> r.value in names && NameMatches(r.value, name, false)
  {
    match FindName(names, name, false)
    case None => None
    case Some(i) => Some(names[i])
  }

  /** Whenever the as-written lookup does find an entry, the corrected one agrees with it up to case. */
  lemma ExistingNameRefinesAsWritten(names: seq<string>, name: string)
    ensures ExistingNameAsWritten(names, name).Some? ==> ExistingName(names, name).Some?
    ensures ExistingNameAsWritten(names, name).Some? ==>
      NameMatches(ExistingName(names, name).value, ExistingNameAsWritten(names, name).value, false)
  {
    var i := FindName(names, name, true);
    if i.Some? {
      SensitiveMatchImpliesInsensitive(names[i.value], name);
      var j := FindName(names, name, false).value;
      assert Casefold(names[j]) == Casefold(name) == Casefold(names[i.value]);
    }
  }
}
