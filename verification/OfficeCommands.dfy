/** OfficeCLI commands: the two ways a structured spec is written as one, and the memory of fatal ones. */
module OfficeCommands {
  import opened Options
  import opened Text

  const SUPPORTED_FORMATS := {"pptx", "docx", "xlsx"}
  const FILE_ONLY := {"open", "close", "validate", "watch", "unwatch"}

  datatype Value = Flag(on: bool) | Null | Line(text: string) | Items(items: seq<string>)

  /** A normalized spec: the default file is filled in. Missing strings are empty; dictionaries keep their order. */
  datatype Spec = Spec(verb: string, file: string, path: string, parent: string, kind: string, mode: string,
                       selector: string, format: string, props: seq<(string, string)>, options: seq<(string, Value)>)

  /** The authorized form of a file for a verb: `None` when it is refused. */
  type FileArg = (string, string) -> Option<string>

  function Named<T>(pairs: seq<(string, T)>): seq<(string, T)> {
    if pairs == [] then []
    else (if Strip(pairs[0].0) != "" then [pairs[0]] else []) + Named(pairs[1..])
  }

  function PropArgs(props: seq<(string, string)>): seq<string> {
    if props == [] then [] else ["--prop", props[0].0 + "=" + props[0].1] + PropArgs(props[1..])
  }

  function Dashed(key: string): string {
    seq(|key|, i requires 0 <= i < |key| => if key[i] == '_' then '-' else key[i])
  }

  function ItemFlags(flag: string, items: seq<string>): seq<string> {
    if items == [] then [] else [flag, items[0]] + ItemFlags(flag, items[1..])
  }

  function OptionFlags(options: seq<(string, Value)>): seq<string> {
    if options == [] then []
    else
      var flag := "--" + Dashed(options[0].0);
      (match options[0].1
       case Flag(on) => if on then [flag] else []
       case Null => []
       case Line(text) => [flag, text]
       case Items(items) => ItemFlags(flag, items)) + OptionFlags(options[1..])
  }

  function Lookup(options: seq<(string, Value)>, key: string): Value {
    if options == [] then Null else if options[0].0 == key then options[0].1 else Lookup(options[1..], key)
  }

  /** `str(value or "").strip()` of an option that is a string or missing. */
  function TextOf(v: Value): string {
    if v.Line? then Strip(v.text) else ""
  }

  predicate Truthy(v: Value) {
    match v
    case Flag(on) => on
    case Null => false
    case Line(text) => text != ""
    case Items(items) => items != []
  }

  function NonBlank(items: seq<string>): seq<string> {
    if items == [] then [] else (if Strip(items[0]) != "" then [Strip(items[0])] else []) + NonBlank(items[1..])
  }

  function TopicArgs(options: seq<(string, Value)>): seq<string> {
    var topic := if Truthy(Lookup(options, "topic")) then Lookup(options, "topic") else Lookup(options, "command_path");
    match topic
    case Items(items) => NonBlank(items)
    case Line(text) => Words(text)
    case Flag(on) => [if on then "True" else "False"]
    case Null => []
  }

  /** `format`, or else the option of that name. */
  function FormatName(spec: Spec): string {
    if Strip(spec.format) != "" then Strip(spec.format) else TextOf(Lookup(Named(spec.options), "format"))
  }

  function Present(s: string): seq<string> {
    if Strip(s) == "" then [] else [Strip(s)]
  }

  function TypeArgs(spec: Spec): seq<string> {
    if Strip(spec.kind) == "" then [] else ["--type", Strip(spec.kind)]
  }

  /** The arguments of `_render_officecli_command`: the key under which a spec is looked up. */
  function Rendered(spec: Spec): seq<string> {
    var verb := Strip(spec.verb);
    var options := Named(spec.options);
    if verb == "" then []
    else if verb == "help" then
      ["help"] + (if FormatName(spec) != "" then [FormatName(spec)] else []) + TopicArgs(options)
    else
      [verb] + Present(spec.file) +
      (if verb == "view" then Present(spec.mode)
       else if verb == "get" || verb == "remove" || verb == "set" then Present(spec.path)
       else if verb == "query" then Present(spec.selector)
       else if verb == "add" then Present(spec.parent) + TypeArgs(spec)
       else []) +
      (if verb == "set" || verb == "add" then PropArgs(Named(spec.props)) else []) +
      OptionFlags(options)
  }

  /** The arguments of `compile_officecli_argv`; `None` when it raises. */
  function Compiled(fileArg: FileArg, spec: Spec): Option<seq<string>> {
    var verb := Lower(Strip(spec.verb));
    var flags := OptionFlags(Named(spec.options));
    var file := if Strip(spec.file) == "" then Some("") else fileArg(Strip(spec.file), verb);
    if file.None? then None
    else if verb == "help" then
      if Lower(FormatName(spec)) in SUPPORTED_FORMATS
      then Some([Lower(FormatName(spec))] + TopicArgs(Named(spec.options))) else None
    else if file.value == "" then None
    else if verb == "create" then Some([verb, file.value])
    else if verb in FILE_ONLY then Some([verb, file.value] + flags)
    else if verb == "view" then OneArgument(verb, file.value, Strip(spec.mode), flags)
    else if verb == "query" then OneArgument(verb, file.value, Strip(spec.selector), flags)
    else if verb == "get" || verb == "remove" then OneArgument(verb, file.value, Strip(spec.path), flags)
    else if verb == "set" then
      if Named(spec.props) == [] then None
      else OneArgument(verb, file.value, Strip(spec.path), PropArgs(Named(spec.props)) + flags)
    else if verb == "add" then
      if Strip(spec.parent) == "" || Strip(spec.kind) == "" then None
      else
        Some([verb, file.value, Strip(spec.parent), "--type", Strip(spec.kind)] + PropArgs(Named(spec.props)) + flags)
    else None
  }

  function OneArgument(verb: string, file: string, argument: string, rest: seq<string>): Option<seq<string>> {
    if argument == "" then None else Some([verb, file, argument] + rest)
  }

  /** `_validate_structured_spec` finds something to refuse. */
  predicate SpecError(spec: Spec) {
    var verb := Lower(Strip(spec.verb));
    if verb == "help" then FormatName(spec) == ""
    else
      || (verb == "view" && Strip(spec.mode) == "")
      || ((verb == "get" || verb == "remove" || verb == "set") && Strip(spec.path) == "")
      || (verb == "query" && Strip(spec.selector) == "")
      || (verb == "add" && (Strip(spec.parent) == "" || Strip(spec.kind) == ""))
      || (verb == "set" && Named(spec.props) == [])
  }

  // ---------------------------------------------------------------------------------
  // What the arguments say

  /** Two dashes and the option's name, with dashes for its underscores. */
  predicate IsFlagOf(flag: string, key: string) {
    && |flag| == |key| + 2 && flag[0] == flag[1] == '-'
    && forall i :: 0 <= i < |key| ==> flag[i + 2] == if key[i] == '_' then '-' else key[i]
  }

  /** The arguments of one option: none if it is off or null, its flag if it is on, else its flag before each text. */
  ghost predicate IsOption(args: seq<string>, key: string, v: Value) {
    match v
    case Null => args == []
    case Flag(on) => if on then |args| == 1 && IsFlagOf(args[0], key) else args == []
    case Line(text) => |args| == 2 && IsFlagOf(args[0], key) && args[1] == text
    case Items(items) =>
      && |args| == 2 * |items|
      && forall i :: 0 <= i < |items| ==> IsFlagOf(args[2 * i], key) && args[2 * i + 1] == items[i]
  }

  lemma AfterPair(a: string, b: string, rest: seq<string>, i: nat)
    requires 2 * i + 1 < |rest|
    ensures ([a, b] + rest)[2 * (i + 1)] == rest[2 * i] && ([a, b] + rest)[2 * (i + 1) + 1] == rest[2 * i + 1]
  {
  }

  lemma {:induction false} ItemsAreFlagged(flag: string, items: seq<string>)
    ensures |ItemFlags(flag, items)| == 2 * |items|
    ensures forall i :: 0 <= i < |items| ==>
              ItemFlags(flag, items)[2 * i] == flag && ItemFlags(flag, items)[2 * i + 1] == items[i]
  {
    if items != [] {
      ItemsAreFlagged(flag, items[1..]);
      var args, rest := ItemFlags(flag, items), ItemFlags(flag, items[1..]);
      assert args == [flag, items[0]] + rest;
      hide ItemFlags;
      forall i | 0 < i < |items| ensures args[2 * i] == flag && args[2 * i + 1] == items[i] {
        AfterPair(flag, items[0], rest, i - 1);
        assert items[1..][i - 1] == items[i];
      }
    }
  }

  lemma OneOption(key: string, v: Value)
    ensures IsOption(OptionFlags([(key, v)]), key, v)
  {
    var flag := "--" + Dashed(key);
    assert IsFlagOf(flag, key);
    assert OptionFlags([(key, v)][1..]) == [];
    if v.Items? {
      ItemsAreFlagged(flag, v.items);
    }
  }

  /** The options contribute one after the other; blank names are dropped. */
  lemma {:induction false} OptionsInOrder(a: seq<(string, Value)>, b: seq<(string, Value)>)
    ensures OptionFlags(a + b) == OptionFlags(a) + OptionFlags(b)
  {
    if a == [] {
      assert a + b == b;
    } else {
      assert (a + b)[1..] == a[1..] + b;
      OptionsInOrder(a[1..], b);
    }
  }

  lemma {:induction false} NamedInOrder<T>(a: seq<(string, T)>, b: seq<(string, T)>)
    ensures Named(a + b) == Named(a) + Named(b)
    ensures a == [] ==> Named(a) == []
    ensures |a| == 1 ==> Named(a) == if exists c :: c in a[0].0 && !IsSpace(c) then a else []
  {
    if a == [] {
      assert a + b == b;
    } else {
      assert (a + b)[1..] == a[1..] + b;
      NamedInOrder(a[1..], b);
      StripFacts(a[0].0);
    }
  }

  /** The help topic: the words of a text, the non-blank items of a list, and the command path if there is none. */
  lemma HelpTopic(options: seq<(string, Value)>)
    ensures var topic, path := Lookup(options, "topic"), Lookup(options, "command_path");
            var none := topic == Null || topic == Flag(false) || topic == Line("") || topic == Items([]);
            && (!none && topic.Line? ==> TopicArgs(options) == Words(topic.text))
            && (!none && topic.Items? ==> AreItems(TopicArgs(options), topic.items))
            && (none && path.Line? ==> TopicArgs(options) == Words(path.text))
            && (none && path.Items? ==> AreItems(TopicArgs(options), path.items))
            && (none && path == Null ==> TopicArgs(options) == [])
  {
    hide Lookup, Words, NonBlank;
    var topic, path := Lookup(options, "topic"), Lookup(options, "command_path");
    if topic.Items? {
      NonBlankItems(topic.items);
    }
    if path.Items? {
      NonBlankItems(path.items);
    }
  }

  /** The arguments are the items that are not blank, stripped, in order. */
  ghost predicate AreItems(args: seq<string>, items: seq<string>) {
    if items == [] then args == []
    else if Strip(items[0]) == "" then AreItems(args, items[1..])
    else args != [] && args[0] == Strip(items[0]) && AreItems(args[1..], items[1..])
  }

  lemma {:induction false} NonBlankItems(items: seq<string>)
    ensures AreItems(NonBlank(items), items)
  {
    hide Strip;
    if items != [] {
      var rest := NonBlank(items[1..]);
      NonBlankItems(items[1..]);
      assert [] + rest == rest;
      assert Strip(items[0]) != "" ==> NonBlank(items)[1..] == rest;
    }
  }

  /** The first option of a name counts. */
  lemma {:induction false} LookupIsFirst(options: seq<(string, Value)>, key: string, i: nat)
    requires i < |options| && options[i].0 == key && forall j :: 0 <= j < i ==> options[j].0 != key
    ensures Lookup(options, key) == options[i].1
  {
    if i > 0 {
      LookupIsFirst(options[1..], key, i - 1);
    }
  }

  lemma {:induction false} PropsInOrder(props: seq<(string, string)>)
    ensures |PropArgs(props)| == 2 * |props|
    ensures forall i :: 0 <= i < |props| ==>
              PropArgs(props)[2 * i] == "--prop" && PropArgs(props)[2 * i + 1] == props[i].0 + "=" + props[i].1
  {
    if props != [] {
      PropsInOrder(props[1..]);
      var first, args, rest := props[0].0 + "=" + props[0].1, PropArgs(props), PropArgs(props[1..]);
      assert args == ["--prop", first] + rest;
      hide PropArgs;
      forall i | 0 < i < |props| ensures args[2 * i] == "--prop" && args[2 * i + 1] == props[i].0 + "=" + props[i].1 {
        AfterPair("--prop", first, rest, i - 1);
        assert props[1..][i - 1] == props[i];
      }
    }
  }

  /**
   * Validation refuses only what would not compile: a spec compiles exactly if validation finds nothing, the verb is
   * known, the file is authorized, and a help format is supported.
   */
  lemma CompilesExactly(fileArg: FileArg, spec: Spec)
    ensures Compiled(fileArg, spec).Some? <==>
            var verb, file := Lower(Strip(spec.verb)), Strip(spec.file);
            && !SpecError(spec)
            && (file != "" ==> fileArg(file, verb).Some?)
            && if verb == "help" then Lower(FormatName(spec)) in SUPPORTED_FORMATS
               else
                 && file != "" && fileArg(file, verb) != Some("")
                 && (verb in FILE_ONLY || verb in {"create", "view", "query", "get", "remove", "set", "add"})
  {
    hide Named, PropArgs, OptionFlags, Strip, FormatName, TopicArgs;
    assert Lower("") == "";
    Verbs();
  }

  /** The compiled command, verb by verb. */
  lemma CompiledSays(fileArg: FileArg, spec: Spec)
    requires Compiled(fileArg, spec).Some? && Lower(Strip(spec.verb)) != "help"
    ensures var verb, args := Lower(Strip(spec.verb)), Compiled(fileArg, spec).value;
            var head := [verb, fileArg(Strip(spec.file), verb).value];
            var props, flags := PropArgs(Named(spec.props)), OptionFlags(Named(spec.options));
            && (verb == "create" ==> args == head)
            && (verb in {"open", "close", "validate", "watch", "unwatch"} ==> args == head + flags)
            && (verb == "view" ==> args == head + [Strip(spec.mode)] + flags)
            && (verb == "query" ==> args == head + [Strip(spec.selector)] + flags)
            && (verb == "get" || verb == "remove" ==> args == head + [Strip(spec.path)] + flags)
            && (verb == "set" ==> args == head + [Strip(spec.path)] + props + flags)
            && (verb == "add" ==> args == head + [Strip(spec.parent), "--type", Strip(spec.kind)] + props + flags)
  {
    hide Named, PropArgs, OptionFlags, Strip, Lower, FormatName, TopicArgs;
    Verbs();
  }

  lemma Verbs()
    ensures "" !in SUPPORTED_FORMATS
    ensures forall v :: v in FILE_ONLY ==> v !in {"view", "query", "get", "remove", "set", "add", "help", "create"}
  {
    assert |"get"| == |"set"| == |"add"| == 3 && |"view"| == |"help"| == 4 && |"query"| == 5;
    assert |"remove"| == |"create"| == 6 && "open"[0] != "view"[0] && "open"[0] != "help"[0];
    assert "watch"[0] != "query"[0] && "close"[0] != "query"[0];
  }

  // ---------------------------------------------------------------------------------
  // When the two forms are the same

  /** A lower-case verb other than help, a file that is authorized under its own name, and `create` without flags. */
  predicate Canonical(fileArg: FileArg, spec: Spec) {
    var verb := Strip(spec.verb);
    && Lower(verb) == verb != "help"
    && fileArg(Strip(spec.file), verb) == Some(Strip(spec.file))
    && (verb == "create" ==> OptionFlags(Named(spec.options)) == [])
  }

  /** Among the specs that compile, the looked-up form is the compiled one exactly for the canonical ones. */
  lemma SameFormExactly(fileArg: FileArg, spec: Spec)
    requires Compiled(fileArg, spec).Some?
    ensures Rendered(spec) == Compiled(fileArg, spec).value <==> Canonical(fileArg, spec)
  {
    hide Named, PropArgs, OptionFlags, FormatName, TopicArgs, Strip, Lower;
    var verb := Strip(spec.verb);
    var compiled := Compiled(fileArg, spec).value;
    if Lower(verb) == "help" {
      HelpForm(fileArg, spec);
    } else if Rendered(spec) == compiled {
      assert compiled[0] == Lower(verb) && compiled[1] == fileArg(Strip(spec.file), Lower(verb)).value;
      assert verb != "" && verb != "help" && Strip(spec.file) == Rendered(spec)[1];
      if verb == "create" {
        assert Rendered(spec)[2..] == OptionFlags(Named(spec.options));
      }
    } else if Canonical(fileArg, spec) {
      CanonicalForm(fileArg, spec);
    }
  }

  lemma HelpForm(fileArg: FileArg, spec: Spec)
    requires Compiled(fileArg, spec).Some? && Lower(Strip(spec.verb)) == "help"
    ensures Rendered(spec) != Compiled(fileArg, spec).value
  {
    hide Named, PropArgs, OptionFlags, TopicArgs, Strip;
    var verb := Strip(spec.verb);
    var compiled := Compiled(fileArg, spec).value;
    assert Lower("") == "";
    if verb == "help" {
      assert FormatName(spec) != "";
    } else {
      assert |compiled[0]| == 4 && Rendered(spec)[0] == verb;
      assert Lower(compiled[0]) == compiled[0] != "help";
    }
  }

  /** What follows the verb and the file in either form. */
  function Arguments(spec: Spec, verb: string): seq<string> {
    if verb == "view" then Present(spec.mode)
    else if verb == "get" || verb == "remove" then Present(spec.path)
    else if verb == "set" then Present(spec.path) + PropArgs(Named(spec.props))
    else if verb == "query" then Present(spec.selector)
    else if verb == "add" then
      Present(spec.parent) + TypeArgs(spec) + PropArgs(Named(spec.props))
    else []
  }

  lemma RenderedParts(spec: Spec)
    requires Strip(spec.verb) != "" && Strip(spec.verb) != "help" && Strip(spec.file) != ""
    ensures Rendered(spec) ==
            [Strip(spec.verb), Strip(spec.file)] + Arguments(spec, Strip(spec.verb)) + OptionFlags(Named(spec.options))
  {
    hide Named, PropArgs, OptionFlags, Strip;
  }

  lemma CompiledParts(fileArg: FileArg, spec: Spec)
    requires Compiled(fileArg, spec).Some? && Lower(Strip(spec.verb)) != "help"
    ensures var verb := Lower(Strip(spec.verb));
            && fileArg(Strip(spec.file), verb).Some? && Strip(spec.file) != ""
            && Compiled(fileArg, spec).value ==
               [verb, fileArg(Strip(spec.file), verb).value] + Arguments(spec, verb) +
               if verb == "create" then [] else OptionFlags(Named(spec.options))
  {
    hide Named, PropArgs, OptionFlags, Strip, Lower, FormatName, TopicArgs;
  }

  lemma CanonicalForm(fileArg: FileArg, spec: Spec)
    requires Compiled(fileArg, spec).Some? && Canonical(fileArg, spec)
    ensures Rendered(spec) == Compiled(fileArg, spec).value
  {
    CompiledParts(fileArg, spec);
    CompiledVerb(fileArg, spec);
    hide Compiled, Rendered, Named, PropArgs, OptionFlags, Strip, Arguments, Lower;
    RenderedParts(spec);
  }

  lemma CompiledVerb(fileArg: FileArg, spec: Spec)
    requires Compiled(fileArg, spec).Some?
    ensures Strip(spec.verb) != ""
  {
    hide Named, PropArgs, OptionFlags, Strip, FormatName, TopicArgs;
    assert Lower("") == "";
  }

  // ---------------------------------------------------------------------------------
  // The memory of fatal commands

  /** The arguments after the program name; quoting keeps different ones apart. */
  type Key = seq<string>

  /** How a command ended: a fatal error, a success, or neither. */
  datatype Verdict = Fatal | Good | Other

  datatype Answer = Blocked | Refused | Raised | Executed(verdict: Verdict)

  /** A call: its spec, whether it goes to the desktop, and how it ends if it is run. */
  datatype Call = Call(spec: Spec, desktop: bool, verdict: Verdict)

  /** The key a call's verdict is kept under; `None` if it cannot be run. */
  function KeptUnder(fileArg: FileArg, call: Call): Option<Key> {
    if call.desktop then Some(Rendered(call.spec)) else Compiled(fileArg, call.spec)
  }

  function AnswerTo(fileArg: FileArg, keys: set<Key>, call: Call): Answer {
    if Rendered(call.spec) in keys then Blocked
    else if SpecError(call.spec) then Refused
    else if KeptUnder(fileArg, call).None? then Raised
    else Executed(call.verdict)
  }

  function KeysAfter(fileArg: FileArg, keys: set<Key>, call: Call): set<Key> {
    match AnswerTo(fileArg, keys, call)
    case Blocked => keys
    case Refused => keys + {Rendered(call.spec)}
    case Raised => keys
    case Executed(Fatal) => keys + {KeptUnder(fileArg, call).value}
    case Executed(Good) => keys - {KeptUnder(fileArg, call).value}
    case Executed(Other) => keys
  }

  /** A key is remembered after a call if the call failed or was refused under it, or if it was and did not succeed. */
  lemma KeysFollowVerdicts(fileArg: FileArg, keys: set<Key>, call: Call, key: Key)
    ensures key in KeysAfter(fileArg, keys, call) <==>
            var answer, under := AnswerTo(fileArg, keys, call), KeptUnder(fileArg, call);
            || (answer == Refused && key == Rendered(call.spec))
            || (answer == Executed(Fatal) && under == Some(key))
            || (key in keys && !(answer == Executed(Good) && under == Some(key)))
  {
    hide Rendered, Compiled, SpecError;
  }

  class FatalMemory {
    var blocks: map<string, set<Key>>

    /** No scope is kept without a command. */
    ghost predicate Valid()
      reads this
    {
      forall scope :: scope in blocks ==> blocks[scope] != {}
    }

    function Keys(scope: string): set<Key>
      reads this
    {
      if scope in blocks then blocks[scope] else {}
    }

    constructor ()
      ensures Valid() && blocks == map[]
    {
      blocks := map[];
    }

    method Remember(scope: string, key: Key)
      requires Valid()
      modifies this
      ensures Valid() && Keys(scope) == old(Keys(scope)) + {key}
      ensures forall other :: other != scope ==> Keys(other) == old(Keys(other))
    {
      if scope !in blocks {
        blocks := blocks[scope := {}];
      }
      blocks := blocks[scope := blocks[scope] + {key}];
    }

    method Clear(scope: string, key: Key)
      requires Valid()
      modifies this
      ensures Valid() && Keys(scope) == old(Keys(scope)) - {key}
      ensures forall other :: other != scope ==> Keys(other) == old(Keys(other))
    {
      if scope !in blocks {
        return;
      }
      blocks := blocks[scope := blocks[scope] - {key}];
      if blocks[scope] == {} {
        blocks := blocks - {scope};
      }
    }

    /** `execute_officecli_spec` */
    method Execute(fileArg: FileArg, scope: string, call: Call) returns (answer: Answer)
      requires Valid()
      modifies this
      ensures Valid() && answer == AnswerTo(fileArg, old(Keys(scope)), call)
      ensures Keys(scope) == KeysAfter(fileArg, old(Keys(scope)), call)
      ensures forall other :: other != scope ==> Keys(other) == old(Keys(other))
    {
      hide Rendered, Compiled, SpecError;
      var key := Rendered(call.spec);
      if scope in blocks && key in blocks[scope] {
        return Blocked;
      }
      if SpecError(call.spec) {
        Remember(scope, key);
        return Refused;
      }
      if !call.desktop {
        var compiled := Compiled(fileArg, call.spec);
        if compiled.None? {
          return Raised;
        }
        key := compiled.value;
      }
      if call.verdict == Fatal {
        Remember(scope, key);
      } else if call.verdict == Good {
        Clear(scope, key);
      }
      answer := Executed(call.verdict);
    }
  }

  /** A command that failed fatally is blocked when repeated, exactly if it ran on the desktop or is canonical. */
  lemma RepeatIsBlockedExactly(fileArg: FileArg, keys: set<Key>, call: Call)
    requires AnswerTo(fileArg, keys, call) == Executed(Fatal)
    ensures AnswerTo(fileArg, KeysAfter(fileArg, keys, call), call) == Blocked <==>
            call.desktop || Canonical(fileArg, call.spec)
  {
    hide Rendered, Compiled, SpecError, Canonical;
    if !call.desktop {
      SameFormExactly(fileArg, call.spec);
    }
  }

  /** The keys after the first `n` calls of one scope. */
  function KeysAt(fileArg: FileArg, calls: seq<Call>, n: nat): set<Key>
    requires n <= |calls|
  {
    if n == 0 then {} else KeysAfter(fileArg, KeysAt(fileArg, calls, n - 1), calls[n - 1])
  }

  function AnswerAt(fileArg: FileArg, calls: seq<Call>, n: nat): Answer
    requires n < |calls|
  {
    AnswerTo(fileArg, KeysAt(fileArg, calls, n), calls[n])
  }

  predicate Tidy(fileArg: FileArg, call: Call) {
    call.desktop || Compiled(fileArg, call.spec).None? || Canonical(fileArg, call.spec)
  }

  lemma TidyKey(fileArg: FileArg, call: Call)
    requires Tidy(fileArg, call) && KeptUnder(fileArg, call).Some?
    ensures KeptUnder(fileArg, call).value == Rendered(call.spec)
  {
    hide Rendered, Compiled, Canonical;
    if !call.desktop {
      SameFormExactly(fileArg, call.spec);
    }
  }

  /**
   * In any run of desktop calls and canonical ones in one scope, nothing is executed again after it was refused or
   * has failed fatally, whatever is executed in between.
   */
  lemma {:induction false} NeverAgain(fileArg: FileArg, calls: seq<Call>, i: nat, j: nat)
    requires i < j < |calls| && forall call :: call in calls ==> Tidy(fileArg, call)
    requires AnswerAt(fileArg, calls, i) == Refused || AnswerAt(fileArg, calls, i) == Executed(Fatal)
    requires Rendered(calls[i].spec) == Rendered(calls[j].spec)
    ensures AnswerAt(fileArg, calls, j) == Blocked
  {
    KeyStays(fileArg, calls, i, j);
  }

  lemma {:induction false} KeyStays(fileArg: FileArg, calls: seq<Call>, i: nat, n: nat)
    requires i < n <= |calls| && forall call :: call in calls ==> Tidy(fileArg, call)
    requires AnswerAt(fileArg, calls, i) == Refused || AnswerAt(fileArg, calls, i) == Executed(Fatal)
    ensures Rendered(calls[i].spec) in KeysAt(fileArg, calls, n)
  {
    hide Rendered, Compiled, SpecError, Canonical, Tidy, KeptUnder;
    var call := calls[n - 1];
    assert call in calls;
    if AnswerAt(fileArg, calls, n - 1).Executed? {
      TidyKey(fileArg, call);
    }
    if i < n - 1 {
      KeyStays(fileArg, calls, i, n - 1);
    }
  }

  /** Help is not canonical: run locally it is executed every time, however often it fails. */
  lemma {:induction false} HelpIsExecutedAgain(fileArg: FileArg, call: Call, n: nat)
    requires call.verdict == Fatal && !call.desktop && Lower(Strip(call.spec.verb)) == "help"
    requires Compiled(fileArg, call.spec).Some?
    ensures AnswerAt(fileArg, seq(n + 1, _ => call), n) == Executed(Fatal)
  {
    HelpKeys(fileArg, call, n + 1, n);
    HelpForm(fileArg, call.spec);
    HelpIsValid(fileArg, call.spec);
  }

  lemma HelpIsValid(fileArg: FileArg, spec: Spec)
    requires Compiled(fileArg, spec).Some? && Lower(Strip(spec.verb)) == "help"
    ensures !SpecError(spec)
  {
    assert Lower("") == "";
  }

  lemma {:induction false} HelpKeys(fileArg: FileArg, call: Call, m: nat, n: nat)
    requires n <= m && call.verdict == Fatal && !call.desktop && Lower(Strip(call.spec.verb)) == "help"
    requires Compiled(fileArg, call.spec).Some?
    ensures KeysAt(fileArg, seq(m, _ => call), n) <= {Compiled(fileArg, call.spec).value}
  {
    if n > 0 {
      HelpKeys(fileArg, call, m, n - 1);
      HelpForm(fileArg, call.spec);
      HelpIsValid(fileArg, call.spec);
    }
  }
}
