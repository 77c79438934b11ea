/**
 Label selectors: an expression over labels is split into tokens, each label is replaced
 by its match result, and the boolean expression is evaluated by a library.
 */
module Labels {
  import opened Wrappers
  import opened Strings

  const IncludeLabel := "konveyor.io/include"

  // ----- labels -----

  predicate IsAlphanumeric(c: char) {
    'a' <= c <= 'z' || 'A' <= c <= 'Z' || '0' <= c <= '9'
  }

  /** `LabelValueFmt` */
  predicate ValidValue(s: string) {
    && s != ""
    && IsAlphanumeric(s[0])
    && (|s| > 1 ==> IsAlphanumeric(s[|s| - 1]) || s[|s| - 1] in "+-")
    && forall k :: 0 < k < |s| - 1 ==> IsAlphanumeric(s[k]) || s[k] in "-. "
  }

  /** `LabelPrefixFmt` */
  predicate ValidPrefix(s: string) {
    s != "" ==>
      && IsAlphanumeric(s[0])
      && IsAlphanumeric(s[|s| - 1])
      && forall k :: 0 < k < |s| - 1 ==> IsAlphanumeric(s[k]) || s[k] in "-_."
  }

  datatype Label = Label(key: string, value: string)

  predicate ValidKey(key: string) {
    var parts := Split(key, '/');
    (|parts| == 1 && ValidValue(parts[0])) || (|parts| == 2 && ValidPrefix(parts[0]) && ValidValue(parts[1]))
  }

  /** `ParseLabel`; `None` is an error. */
  function ParseLabel(text: string): Option<Label> {
    var parts := Split(text, '=');
    if |parts| > 2 then None
    else if |parts| == 2 && parts[1] != "" && !ValidValue(parts[1]) then None
    else if !ValidKey(parts[0]) then None
    else Some(Label(parts[0], if |parts| == 2 then parts[1] else ""))
  }

  /** `AsString` */
  function AsString(l: Label): string {
    if l.value == "" then l.key else l.key + "=" + l.value
  }

  predicate EndsInEquals(s: string) {
    s != "" && s[|s| - 1] == '='
  }

  lemma ValidValueHasNoEquals(s: string)
    requires ValidValue(s)
    ensures '=' !in s && s[|s| - 1] != ' '
  {
  }

  lemma ValidKeyHasNoEquals(key: string)
    requires ValidKey(key)
    ensures key != "" && '=' !in key
  {
    SplitParts(key, '/');
    var parts := Split(key, '/');
    ValidValueHasNoEquals(parts[|parts| - 1]);
  }

  lemma ParsedLabel(text: string)
    requires ParseLabel(text).Some?
    ensures
      var l := ParseLabel(text).value;
      && ValidKey(l.key)
      && (l.value != "" ==> ValidValue(l.value))
      && (text == AsString(l) || (l.value == "" && text == l.key + "="))
  {
    SplitParts(text, '=');
    var parts := Split(text, '=');
    if |parts| == 2 && parts[1] == "" {
      assert parts[0] + ['='] + parts[1] == parts[0] + "=";
    }
  }

  predicate ValidLabel(l: Label) {
    ValidKey(l.key) && (l.value != "" ==> ValidValue(l.value))
  }

  lemma AsStringHasNoTrailingEquals(l: Label)
    requires ValidLabel(l)
    ensures !EndsInEquals(AsString(l))
  {
    ValidKeyHasNoEquals(l.key);
    if l.value == "" {
      assert l.key[|l.key| - 1] in l.key;
    } else {
      ValidValueHasNoEquals(l.value);
    }
  }

  /** A label is written back as it was read exactly when it does not end in "=". */
  lemma WrittenAsReadIff(text: string)
    requires ParseLabel(text).Some?
    ensures AsString(ParseLabel(text).value) == text <==> !EndsInEquals(text)
  {
    ParsedLabel(text);
    AsStringHasNoTrailingEquals(ParseLabel(text).value);
  }

  /** Reading back what is written gives the label again, so no two labels are written alike. */
  lemma ParseInvertsAsString(l: Label)
    requires ValidLabel(l)
    ensures ParseLabel(AsString(l)) == Some(l)
  {
    ValidKeyHasNoEquals(l.key);
    if l.value == "" {
      SplitWithout(l.key, '=');
    } else {
      ValidValueHasNoEquals(l.value);
      SplitWithout(l.value, '=');
      SplitAtFirst(l.key, '=', l.value);
      assert AsString(l) == l.key + ['='] + l.value;
    }
  }

  /** A label is read as what stands before and after its "=". */
  lemma LabelIsSplitAtEquals(key: string, value: string)
    requires ValidKey(key)
    ensures ParseLabel(key) == Some(Label(key, "")) && ParseLabel(key + "=") == Some(Label(key, ""))
    ensures ValidValue(value) ==> ParseLabel(key + "=" + value) == Some(Label(key, value))
  {
    ValidKeyHasNoEquals(key);
    SplitWithout(key, '=');
    SplitAtFirst(key, '=', "");
    assert key + ['='] + "" == key + "=";
    if ValidValue(value) {
      ValidValueHasNoEquals(value);
      SplitWithout(value, '=');
      SplitAtFirst(key, '=', value);
    }
  }

  // ----- tokens -----

  predicate IsSpecial(c: char) {
    c in "!|&()"
  }

  /** How long the run of other characters at the start is. */
  function RunLength(s: string): (n: nat)
    ensures n <= |s|
  {
    if s == "" || IsSpecial(s[0]) then 0 else 1 + RunLength(s[1..])
  }

  /** The matches of `exprSplitter`, from left to right; a single "|" or "&" does not match. */
  function FindAll(s: string): seq<string>
    decreases |s|
  {
    if s == "" then []
    else if |s| >= 2 && (s[..2] == "||" || s[..2] == "&&") then [s[..2]] + FindAll(s[2..])
    else if s[0] in "!()" then [[s[0]]] + FindAll(s[1..])
    else if IsSpecial(s[0]) then FindAll(s[1..])
    else [s[..RunLength(s)]] + FindAll(s[RunLength(s)..])
  }

  function Clean(token: string): string {
    TrimEquals(TrimSpaces(token))
  }

  function CleanAll(tokens: seq<string>): seq<string> {
    if tokens == [] then []
    else (if Clean(tokens[0]) == "" then [] else [Clean(tokens[0])]) + CleanAll(tokens[1..])
  }

  function Tokens(expr: string): seq<string> {
    CleanAll(FindAll(expr))
  }

  predicate HasSpecial(token: string) {
    exists c <- token :: IsSpecial(c)
  }

  predicate IsOperator(token: string) {
    token in ["!", "(", ")", "&&", "||"]
  }

  /** A token that starts with a blank or ends with a blank does not come back from `tokenize`. */
  predicate IsWord(token: string) {
    && token != ""
    && !HasSpecial(token)
    && token[0] != ' ' && token[|token| - 1] != ' '
    && !EndsInEquals(token)
  }

  lemma {:induction false} TrimAround(s: string, leading: bool, trailing: bool)
    requires s != "" && s[0] != ' ' && s[|s| - 1] != ' '
    ensures TrimSpaces((if leading then " " else "") + s + (if trailing then " " else "")) == s
  {
    if leading {
      var t := " " + s + (if trailing then " " else "");
      assert t[1..] == s + (if trailing then " " else "");
      TrimAround(s, false, trailing);
      assert "" + s + (if trailing then " " else "") == t[1..];
    } else if trailing {
      var t := "" + s + " ";
      assert t[..|t| - 1] == s;
      TrimAround(s, false, false);
      assert "" + s + "" == s;
    } else {
      assert "" + s + "" == s;
    }
  }

  lemma {:induction false} RunThen(run: string, s: string)
    requires !HasSpecial(run) && (s == "" || IsSpecial(s[0]))
    ensures RunLength(run + s) == |run|
  {
    if run == "" {
      assert run + s == s;
    } else {
      assert (run + s)[1..] == run[1..] + s;
      assert run[0] in run && forall c :: c in run[1..] ==> c in run;
      RunThen(run[1..], s);
    }
  }

  /** A run of other characters up to a special one is one token, unless nothing is left of it. */
  lemma TokensOfRun(run: string, s: string)
    requires run != "" && !HasSpecial(run) && (s == "" || IsSpecial(s[0]))
    ensures Tokens(run + s) == (if Clean(run) == "" then [] else [Clean(run)]) + Tokens(s)
  {
    RunThen(run, s);
    var t := run + s;
    assert t[0] == run[0] && run[0] in run;
    assert t[..|run|] == run && t[|run|..] == s;
    assert |t| >= 2 ==> t[..2][0] == t[0];
    assert FindAll(t) == [run] + FindAll(s);
  }

  /** An operator is one token. */
  lemma TokensOfOperator(op: string, s: string)
    requires IsOperator(op)
    ensures Tokens(op + s) == [op] + Tokens(s)
  {
    var t := op + s;
    assert t[..|op|] == op && t[|op|..] == s;
    if |op| == 1 {
      assert t[0] == op[0];
      assert |t| >= 2 ==> t[..2][0] == op[0];
    } else {
      assert t[..2] == op;
    }
    assert FindAll(t) == [op] + FindAll(s);
    assert Clean(op) == op;
  }

  /** The tokens, each after a blank. */
  function Spaced(tokens: seq<string>): string {
    if tokens == [] then "" else " " + tokens[0] + Spaced(tokens[1..])
  }

  /** Operators and words, with no two words side by side. */
  predicate IsExpression(tokens: seq<string>) {
    && (forall t <- tokens :: IsOperator(t) || IsWord(t))
    && forall k :: 0 < k < |tokens| ==> IsOperator(tokens[k - 1]) || IsOperator(tokens[k])
  }

  predicate IsBlank(s: string) {
    s == "" || s == " "
  }

  lemma WordStaysAround(before: string, w: string, after: string)
    requires IsWord(w) && IsBlank(before) && IsBlank(after)
    ensures Clean(before + w + after) == w && !HasSpecial(before + w + after)
  {
    TrimAround(w, before == " ", after == " ");
    assert before + w + after == (if before == " " then " " else "") + w + (if after == " " then " " else "");
  }

  predicate StartsSpecial(s: string) {
    s != "" && IsSpecial(s[0])
  }

  lemma BlankBefore(before: string, s: string)
    requires IsBlank(before) && StartsSpecial(s)
    ensures Tokens(before + s) == Tokens(s)
  {
    if before == "" {
      assert before + s == s;
    } else {
      assert Clean(" ") == "";
      TokensOfRun(" ", s);
    }
  }

  lemma LastWord(before: string, w: string)
    requires IsWord(w) && IsBlank(before)
    ensures Tokens(before + w) == [w]
  {
    WordStaysAround(before, w, "");
    assert before + w + "" == before + w;
    TokensOfRun(before + w, "");
    assert before + w + "" == before + w;
  }

  lemma WordBefore(before: string, w: string, s: string)
    requires IsWord(w) && IsBlank(before) && StartsSpecial(s)
    ensures Tokens(before + w + " " + s) == [w] + Tokens(s)
  {
    WordStaysAround(before, w, " ");
    TokensOfRun(before + w + " ", s);
  }

  lemma OperatorFirst(op: string, s: string)
    requires IsOperator(op)
    ensures Tokens(op + s) == [op] + Tokens(s) && StartsSpecial(op + s)
  {
    TokensOfOperator(op, s);
    assert (op + s)[0] == op[0];
  }

  lemma ExpressionTail(tokens: seq<string>)
    requires IsExpression(tokens) && tokens != []
    ensures IsExpression(tokens[1..])
    ensures IsOperator(tokens[0]) || IsWord(tokens[0])
    ensures |tokens| > 1 ==> IsOperator(tokens[0]) || IsOperator(tokens[1])
  {
    var rest := tokens[1..];
    assert tokens[0] in tokens;
    assert forall t :: t in rest ==> t in tokens;
    forall k | 0 < k < |rest|
      ensures IsOperator(rest[k - 1]) || IsOperator(rest[k])
    {
      assert rest[k - 1] == tokens[k] && rest[k] == tokens[k + 1];
      assert IsOperator(tokens[k + 1 - 1]) || IsOperator(tokens[k + 1]);
    }
  }

  /** The tokens with blanks between them. */
  function Text(tokens: seq<string>): string {
    if tokens == [] then "" else tokens[0] + Spaced(tokens[1..])
  }

  lemma SpacedIsText(tokens: seq<string>)
    requires tokens != []
    ensures Spaced(tokens) == " " + Text(tokens)
  {
  }

  lemma OperatorThen(before: string, tokens: seq<string>)
    requires IsBlank(before) && tokens != [] && IsOperator(tokens[0])
    ensures Tokens(before + Text(tokens)) == [tokens[0]] + Tokens(Spaced(tokens[1..])) && StartsSpecial(Text(tokens))
  {
    OperatorFirst(tokens[0], Spaced(tokens[1..]));
    BlankBefore(before, Text(tokens));
  }

  lemma Regroup(before: string, w: string, s: string)
    ensures before + w + " " + s == before + (w + (" " + s))
  {
  }

  lemma WordThen(before: string, w: string, rest: seq<string>)
    requires IsBlank(before) && IsWord(w) && rest != [] && StartsSpecial(Text(rest))
    ensures Tokens(before + (w + Spaced(rest))) == [w] + Tokens(Text(rest))
  {
    WordBefore(before, w, Text(rest));
    SpacedIsText(rest);
    Regroup(before, w, Text(rest));
  }

  lemma {:induction false} TokensOfText(before: string, tokens: seq<string>)
    requires IsExpression(tokens) && IsBlank(before)
    ensures tokens != [] ==> Tokens(before + Text(tokens)) == tokens
    decreases |tokens|
  {
    if tokens != [] {
      var first, rest := tokens[0], tokens[1..];
      ExpressionTail(tokens);
      assert tokens == [first] + rest;
      TokensOfText("", rest);
      TokensOfText(" ", rest);
      assert "" + Text(rest) == Text(rest);
      if IsOperator(first) {
        OperatorThen(before, tokens);
        if rest != [] {
          SpacedIsText(rest);
        }
      } else if rest == [] {
        LastWord(before, first);
        assert Text(tokens) == first;
      } else {
        OperatorThen("", rest);
        WordThen(before, first, rest);
      }
    }
  }

  /** Writing the tokens of an expression with blanks between them and reading them again changes nothing. */
  lemma TokensOfSpaced(tokens: seq<string>)
    requires IsExpression(tokens)
    ensures Tokens(Spaced(tokens)) == tokens && Tokens(Text(tokens)) == tokens
  {
    if tokens != [] {
      TokensOfText(" ", tokens);
      TokensOfText("", tokens);
      SpacedIsText(tokens);
      assert "" + Text(tokens) == Text(tokens);
    }
  }

  // ----- label lists -----

  /** `ParseLabels`: what it returns, whether or not some label was invalid. */
  function ByKey(labels: seq<string>): map<string, seq<string>> {
    if labels == [] then map[]
    else
      var before := ByKey(labels[..|labels| - 1]);
      match ParseLabel(labels[|labels| - 1])
      case None => before
      case Some(l) => before[l.key := (if l.key in before then before[l.key] else []) + [l.value]]
  }

  predicate AllValid(labels: seq<string>) {
    forall text <- labels :: ParseLabel(text).Some?
  }

  /** A label's key and value are in the map exactly when the list has the label. */
  lemma {:induction false} ByKeyHolds(labels: seq<string>, l: Label)
    ensures l.key in ByKey(labels) && l.value in ByKey(labels)[l.key] <==>
      exists text <- labels :: ParseLabel(text) == Some(l)
    ensures l.key in ByKey(labels) ==> ByKey(labels)[l.key] != []
    decreases |labels|
  {
    if labels != [] {
      var init, last := labels[..|labels| - 1], labels[|labels| - 1];
      ByKeyHolds(init, l);
      assert forall text :: text in labels <==> text in init || text == last;
    }
  }

  /** What is read from the list is a valid label. */
  lemma ByKeyIsValid(labels: seq<string>, l: Label)
    requires l.key in ByKey(labels) && l.value in ByKey(labels)[l.key]
    ensures ValidLabel(l)
  {
    ByKeyHolds(labels, l);
    var text :| text in labels && ParseLabel(text) == Some(l);
    ParsedLabel(text);
  }

  lemma ByKeyStep(labels: seq<string>, text: string)
    ensures ByKey(labels + [text]) ==
      match ParseLabel(text)
      case None => ByKey(labels)
      case Some(l) => ByKey(labels)[l.key := (if l.key in ByKey(labels) then ByKey(labels)[l.key] else []) + [l.value]]
    ensures AllValid(labels + [text]) <==> AllValid(labels) && ParseLabel(text).Some?
  {
    assert (labels + [text])[..|labels|] == labels;
    assert forall t :: t in labels + [text] <==> t in labels || t == text;
  }

  function Parsed(labels: seq<string>): (parsed: seq<Option<Label>>)
    ensures |parsed| == |labels|
    ensures forall k :: 0 <= k < |labels| ==> parsed[k] == ParseLabel(labels[k])
  {
    seq(|labels|, k requires 0 <= k < |labels| => ParseLabel(labels[k]))
  }

  /** The values that valid labels give the key, in order; a label without a value gives it the empty one. */
  function ValuesIn(parsed: seq<Option<Label>>, key: string): seq<string> {
    if parsed == [] then []
    else
      var last := parsed[|parsed| - 1];
      ValuesIn(parsed[..|parsed| - 1], key) +
      if last.Some? && last.value.key == key then [last.value.value] else []
  }

  function ValuesOf(labels: seq<string>, key: string): seq<string> {
    ValuesIn(Parsed(labels), key)
  }

  lemma ParsedOneMore(labels: seq<string>, text: string)
    ensures Parsed(labels + [text]) == Parsed(labels) + [ParseLabel(text)]
  {
  }

  lemma ValuesOneMore(parsed: seq<Option<Label>>, last: Option<Label>, key: string)
    ensures ValuesIn(parsed + [last], key) ==
            ValuesIn(parsed, key) + if last.Some? && last.value.key == key then [last.value.value] else []
  {
    assert (parsed + [last])[..|parsed|] == parsed;
  }

  lemma {:induction false} ByKeyIsValuesOf(labels: seq<string>, key: string)
    ensures key in ByKey(labels) <==> ValuesOf(labels, key) != []
    ensures key in ByKey(labels) ==> ByKey(labels)[key] == ValuesOf(labels, key)
    decreases |labels|
  {
    if labels != [] {
      var init, last := labels[..|labels| - 1], labels[|labels| - 1];
      assert labels == init + [last];
      ByKeyIsValuesOf(init, key);
      ByKeyStep(init, last);
      ParsedOneMore(init, last);
      ValuesOneMore(Parsed(init), ParseLabel(last), key);
    }
  }

  /** The key is given a value when some label of the list has it. */
  lemma {:induction false} ValuesInAre(parsed: seq<Option<Label>>, key: string, value: string)
    ensures value in ValuesIn(parsed, key) <==> Some(Label(key, value)) in parsed
    ensures ValuesIn(parsed, key) != [] <==> exists l <- parsed :: l.Some? && l.value.key == key
    decreases |parsed|
  {
    if parsed != [] {
      var init, last := parsed[..|parsed| - 1], parsed[|parsed| - 1];
      ValuesInAre(init, key, value);
      assert forall l :: l in parsed <==> l in init || l == last;
    }
  }

  lemma ValuesOfAre(labels: seq<string>, key: string, value: string)
    ensures value in ValuesOf(labels, key) <==> exists text <- labels :: ParseLabel(text) == Some(Label(key, value))
    ensures ValuesOf(labels, key) != [] <==>
            exists text <- labels :: ParseLabel(text).Some? && ParseLabel(text).value.key == key
  {
    ValuesInAre(Parsed(labels), key, value);
    assert forall text <- labels :: ParseLabel(text) in Parsed(labels);
  }

  method ParseLabels(labels: seq<string>) returns (keyVal: map<string, seq<string>>, failed: bool)
    ensures keyVal == ByKey(labels)
    ensures failed == !AllValid(labels)
  {
    keyVal, failed := map[], false;
    for k := 0 to |labels|
      invariant keyVal == ByKey(labels[..k])
      invariant failed == !AllValid(labels[..k])
    {
      ByKeyStep(labels[..k], labels[k]);
      assert labels[..k + 1] == labels[..k] + [labels[k]];
      var l := ParseLabel(labels[k]);
      if l.None? {
        failed := true;
        continue;
      }
      var key, val := l.value.key, l.value.value;
      if key !in keyVal {
        keyVal := keyVal[key := []];
      }
      keyVal := keyVal[key := keyVal[key] + [val]];
      assert keyVal == ByKey(labels[..k + 1]);
    }
    assert labels[..|labels|] == labels;
  }

  // ----- the boolean expression -----

  type MatchAny = (string, seq<string>) -> bool

  /** Whether the labels have this label. */
  predicate Holds(labels: map<string, seq<string>>, matchAny: MatchAny, l: Label) {
    l.key in labels && (l.value == "" || matchAny(l.value, labels[l.key]))
  }

  function Bool(b: bool): string {
    if b then "true" else "false"
  }

  /** A label that does not end in "=" becomes its match result; any other token stays. */
  function Replaced(labels: map<string, seq<string>>, matchAny: MatchAny, token: string): string {
    match ParseLabel(token)
    case Some(l) => if EndsInEquals(token) then token else Bool(Holds(labels, matchAny, l))
    case None => token
  }

  function ReplacedAll(labels: map<string, seq<string>>, matchAny: MatchAny, tokens: seq<string>): seq<string> {
    seq(|tokens|, k requires 0 <= k < |tokens| => Replaced(labels, matchAny, tokens[k]))
  }

  function Operands(tokens: seq<string>): seq<string> {
    if tokens == [] then []
    else Operands(tokens[..|tokens| - 1]) + if HasSpecial(tokens[|tokens| - 1]) then [] else [tokens[|tokens| - 1]]
  }

  /** What `getBooleanExpression` returns. */
  function BooleanExpression(expr: string, labels: map<string, seq<string>>, matchAny: MatchAny): string {
    if AllValid(Operands(Tokens(expr))) then TrimSpaces(Spaced(ReplacedAll(labels, matchAny, Tokens(expr)))) else expr
  }

  lemma {:induction false} OperandsAre(tokens: seq<string>, t: string)
    ensures t in Operands(tokens) <==> t in tokens && !HasSpecial(t)
    decreases |tokens|
  {
    if tokens != [] {
      OperandsAre(tokens[..|tokens| - 1], t);
      assert tokens == tokens[..|tokens| - 1] + [tokens[|tokens| - 1]];
    }
  }

  lemma ValidKeyHasNoSpecial(key: string)
    requires ValidKey(key)
    ensures !HasSpecial(key)
  {
    SplitParts(key, '/');
  }

  /** A selector with a token that is neither an operator nor a label is passed on as it is. */
  lemma InvalidIsPassedOn(expr: string, t: string, labels: map<string, seq<string>>, matchAny: MatchAny)
    requires t in Tokens(expr) && !HasSpecial(t) && ParseLabel(t).None?
    ensures BooleanExpression(expr, labels, matchAny) == expr
  {
    OperandsAre(Tokens(expr), t);
  }

  /** No operator can be read as a label. */
  lemma LabelsHaveNoSpecial(text: string)
    requires ParseLabel(text).Some?
    ensures !HasSpecial(text)
  {
    ParsedLabel(text);
    ValidKeyHasNoSpecial(ParseLabel(text).value.key);
  }

  /** `replaceMap` when the values of `keys` are done: it does not depend on the order. */
  ghost predicate MapsTo(replaceMap: map<string, string>, exprLabels: map<string, seq<string>>, keys: set<string>,
                         labels: map<string, seq<string>>, matchAny: MatchAny) {
    && (forall t <- replaceMap ::
          ParseLabel(t).Some? && !EndsInEquals(t) &&
              replaceMap[t] == Bool(Holds(labels, matchAny, ParseLabel(t).value)))
    && forall key <- keys :: key in exprLabels && forall v <- exprLabels[key] :: AsString(Label(key, v)) in replaceMap
  }

  function Substituted(replaceMap: map<string, string>, token: string): string {
    if token in replaceMap then replaceMap[token] else token
  }

  lemma MapReplaces(expr: string, replaceMap: map<string, string>, labels: map<string, seq<string>>,
      matchAny: MatchAny, t: string)
    requires AllValid(Operands(Tokens(expr))) && t in Tokens(expr)
    requires
      var exprLabels := ByKey(Operands(Tokens(expr)));
      MapsTo(replaceMap, exprLabels, exprLabels.Keys, labels, matchAny)
    ensures Substituted(replaceMap, t) == Replaced(labels, matchAny, t)
  {
    var operands := Operands(Tokens(expr));
    if ParseLabel(t).Some? && !EndsInEquals(t) {
      var l := ParseLabel(t).value;
      LabelsHaveNoSpecial(t);
      OperandsAre(Tokens(expr), t);
      ByKeyHolds(operands, l);
      WrittenAsReadIff(t);
      assert AsString(Label(l.key, l.value)) in replaceMap;
    }
  }

  /** The replacements that one label of the expression adds. */
  lemma MapsOneMore(replaceMap: map<string, string>, l: Label, labels: map<string, seq<string>>, matchAny: MatchAny)
    requires ValidLabel(l)
    requires MapsTo(replaceMap, map[], {}, labels, matchAny)
    ensures MapsTo(replaceMap[AsString(l) := Bool(Holds(labels, matchAny, l))], map[], {}, labels, matchAny)
  {
    ParseInvertsAsString(l);
    AsStringHasNoTrailingEquals(l);
  }

  /** `getLabelsFromExpression` */
  method GetLabelsFromExpression(expr: string) returns (labels: Option<map<string, seq<string>>>)
    ensures labels == if AllValid(Operands(Tokens(expr))) then Some(ByKey(Operands(Tokens(expr)))) else None
  {
    var tokens := Tokenize(expr);
    var labelsList := [];
    TokensAreNotEmpty(FindAll(expr));
    for k := 0 to |tokens|
      invariant labelsList == Operands(tokens[..k])
    {
      assert tokens[..k + 1][..k] == tokens[..k];
      assert tokens[k] in tokens;
      if tokens[k] == "" || HasSpecial(tokens[k]) {
        continue;
      }
      labelsList := labelsList + [tokens[k]];
    }
    assert tokens[..|tokens|] == tokens;
    var labelsMap, failed := ParseLabels(labelsList);
    labels := if failed then None else Some(labelsMap);
  }

  lemma {:induction false} TokensAreNotEmpty(matches: seq<string>)
    ensures forall t <- CleanAll(matches) :: t != ""
  {
    if matches != [] {
      TokensAreNotEmpty(matches[1..]);
    }
  }

  lemma {:induction false} CleanAppend(matches: seq<string>, token: string)
    ensures CleanAll(matches + [token]) == CleanAll(matches) + if Clean(token) == "" then [] else [Clean(token)]
  {
    if matches != [] {
      CleanAppend(matches[1..], token);
      assert (matches + [token])[1..] == matches[1..] + [token];
    } else {
      assert matches + [token] == [token] && [token][1..] == [];
    }
  }

  /** `tokenize` */
  method Tokenize(expr: string) returns (tokens: seq<string>)
    ensures tokens == Tokens(expr)
  {
    tokens := [];
    var matches := FindAll(expr);
    for k := 0 to |matches|
      invariant tokens == CleanAll(matches[..k])
    {
      var token := TrimSpaces(matches[k]);
      token := TrimEquals(token);
      if token != "" {
        tokens := tokens + [token];
      }
      CleanAppend(matches[..k], matches[k]);
      assert matches[..k + 1] == matches[..k] + [matches[k]];
    }
    assert matches[..|matches|] == matches;
  }

  lemma {:induction false} SpacedAppend(tokens: seq<string>, t: string)
    ensures Spaced(tokens + [t]) == Spaced(tokens) + " " + t
  {
    if tokens != [] {
      SpacedAppend(tokens[1..], t);
      assert (tokens + [t])[1..] == tokens[1..] + [t];
    } else {
      assert tokens + [t] == [t] && [t][1..] == [];
      assert Spaced([t]) == " " + t + "";
    }
  }

  /** The loop over the labels of the expression; the map's keys are taken in any order. */
  method ReplaceMap(exprLabels: map<string, seq<string>>, compareLabels: map<string, seq<string>>, matchAny: MatchAny)
    returns (replaceMap: map<string, string>)
    requires forall key <- exprLabels, v <- exprLabels[key] :: ValidLabel(Label(key, v))
    ensures MapsTo(replaceMap, exprLabels, exprLabels.Keys, compareLabels, matchAny)
  {
    replaceMap := map[];
    var keys := exprLabels.Keys;
    while keys != {}
      invariant keys <= exprLabels.Keys
      invariant MapsTo(replaceMap, exprLabels, exprLabels.Keys - keys, compareLabels, matchAny)
      decreases keys
    {
      var key :| key in keys;
      ghost var before := replaceMap;
      for j := 0 to |exprLabels[key]|
        invariant MapsTo(replaceMap, map[], {}, compareLabels, matchAny)
        invariant before.Keys <= replaceMap.Keys
        invariant forall v <- exprLabels[key][..j] :: AsString(Label(key, v)) in replaceMap
      {
        var val := exprLabels[key][j];
        assert val in exprLabels[key];
        MapsOneMore(replaceMap, Label(key, val), compareLabels, matchAny);
        var toReplace := key;
        if val != "" {
          toReplace := AsString(Label(toReplace, val));
        }
        if key !in compareLabels {
          replaceMap := replaceMap[toReplace := "false"];
        } else if val != "" && !matchAny(val, compareLabels[key]) {
          replaceMap := replaceMap[toReplace := "false"];
        } else {
          replaceMap := replaceMap[toReplace := "true"];
        }
      }
      keys := keys - {key};
    }
  }

  function SubstitutedAll(replaceMap: map<string, string>, tokens: seq<string>): seq<string> {
    seq(|tokens|, k requires 0 <= k < |tokens| => Substituted(replaceMap, tokens[k]))
  }

  /** The loop over the tokens. */
  method Substitute(tokens: seq<string>, replaceMap: map<string, string>) returns (boolExpr: string)
    ensures boolExpr == Spaced(SubstitutedAll(replaceMap, tokens))
  {
    boolExpr := "";
    ghost var replaced := SubstitutedAll(replaceMap, tokens);
    for k := 0 to |tokens|
      invariant boolExpr == Spaced(replaced[..k])
    {
      SpacedAppend(replaced[..k], replaced[k]);
      assert replaced[..k + 1] == replaced[..k] + [replaced[k]];
      if tokens[k] in replaceMap {
        boolExpr := boolExpr + " " + replaceMap[tokens[k]];
      } else {
        boolExpr := boolExpr + " " + tokens[k];
      }
    }
    assert replaced[..|tokens|] == replaced;
  }

  /** `getBooleanExpression` */
  method GetBooleanExpression(expr: string, compareLabels: map<string, seq<string>>, matchAny: MatchAny)
      returns (boolExpr: string)
    ensures boolExpr == BooleanExpression(expr, compareLabels, matchAny)
  {
    var exprLabels := GetLabelsFromExpression(expr);
    if exprLabels.None? {
      return expr;
    }
    forall key, v | key in exprLabels.value && v in exprLabels.value[key]
      ensures ValidLabel(Label(key, v))
    {
      ByKeyIsValid(Operands(Tokens(expr)), Label(key, v));
    }
    var replaceMap := ReplaceMap(exprLabels.value, compareLabels, matchAny);
    var tokens := Tokenize(expr);
    boolExpr := Substitute(tokens, replaceMap);
    forall k | 0 <= k < |tokens|
      ensures Substituted(replaceMap, tokens[k]) == Replaced(compareLabels, matchAny, tokens[k])
    {
      MapReplaces(expr, replaceMap, compareLabels, matchAny, tokens[k]);
    }
    assert SubstitutedAll(replaceMap, tokens) == ReplacedAll(compareLabels, matchAny, tokens);
    boolExpr := TrimSpaces(boolExpr);
  }

  // ----- what an expression means -----

  /** A fully parenthesised expression: the operators' precedence plays no part. */
  datatype Expr = Operand(text: string) | Not(e: Expr) | And(left: Expr, right: Expr) | Or(left: Expr, right: Expr)

  function TokensOf(e: Expr): (tokens: seq<string>)
    ensures tokens != []
  {
    match e
    case Operand(text) => [text]
    case Not(a) => ["!"] + TokensOf(a)
    case And(a, b) => ["("] + TokensOf(a) + ["&&"] + TokensOf(b) + [")"]
    case Or(a, b) => ["("] + TokensOf(a) + ["||"] + TokensOf(b) + [")"]
  }

  /** Whether the labels satisfy the expression. */
  predicate Denotes(e: Expr, labels: map<string, seq<string>>, matchAny: MatchAny) {
    match e
    case Operand(text) => ParseLabel(text).Some? && Holds(labels, matchAny, ParseLabel(text).value)
    case Not(a) => !Denotes(a, labels, matchAny)
    case And(a, b) => Denotes(a, labels, matchAny) && Denotes(b, labels, matchAny)
    case Or(a, b) => Denotes(a, labels, matchAny) || Denotes(b, labels, matchAny)
  }

  /** Some label of the list has this key. */
  ghost predicate HasKey(labels: seq<string>, key: string) {
    exists text <- labels :: ParseLabel(text).Some? && ParseLabel(text).value.key == key
  }

  /** The list satisfies `k=v` when it has the key and its values match `v`, and `k` when it has the key. */
  ghost predicate Satisfies(e: Expr, labels: seq<string>, matchAny: MatchAny) {
    match e
    case Operand(text) =>
      && ParseLabel(text).Some?
      && var l := ParseLabel(text).value;
         if l.value == "" then HasKey(labels, l.key)
         else HasKey(labels, l.key) && matchAny(l.value, ValuesOf(labels, l.key))
    case Not(a) => !Satisfies(a, labels, matchAny)
    case And(a, b) => Satisfies(a, labels, matchAny) && Satisfies(b, labels, matchAny)
    case Or(a, b) => Satisfies(a, labels, matchAny) || Satisfies(b, labels, matchAny)
  }

  /** The answer to a label `k=v`: is the key there, and do its values match? */
  lemma ValueIsAnsweredIff(labels: seq<string>, matchAny: MatchAny, key: string, value: string)
    requires ValidKey(key) && ValidValue(value)
    ensures Replaced(ByKey(labels), matchAny, key + "=" + value) ==
      if HasKey(labels, key) && matchAny(value, ValuesOf(labels, key)) then "true" else "false"
  {
    LabelIsSplitAtEquals(key, value);
    ValidValueHasNoEquals(value);
    ByKeyIsValuesOf(labels, key);
    ValuesOfAre(labels, key, value);
  }

  /** The answer to a label without a value: is the key there? */
  lemma KeyIsAnsweredIff(labels: seq<string>, matchAny: MatchAny, key: string)
    requires ValidKey(key)
    ensures Replaced(ByKey(labels), matchAny, key) == if HasKey(labels, key) then "true" else "false"
  {
    LabelIsSplitAtEquals(key, "");
    ValidKeyHasNoEquals(key);
    assert key[|key| - 1] in key;
    ByKeyIsValuesOf(labels, key);
    ValuesOfAre(labels, key, "");
  }

  lemma {:induction false} DenotesIsSatisfies(e: Expr, labels: seq<string>, matchAny: MatchAny)
    ensures Denotes(e, ByKey(labels), matchAny) <==> Satisfies(e, labels, matchAny)
  {
    match e {
      case Operand(text) =>
        if ParseLabel(text).Some? {
          ByKeyIsValuesOf(labels, ParseLabel(text).value.key);
          ValuesOfAre(labels, ParseLabel(text).value.key, "");
        }
      case Not(a) => DenotesIsSatisfies(a, labels, matchAny);
      case And(a, b) =>
        DenotesIsSatisfies(a, labels, matchAny);
        DenotesIsSatisfies(b, labels, matchAny);
      case Or(a, b) =>
        DenotesIsSatisfies(a, labels, matchAny);
        DenotesIsSatisfies(b, labels, matchAny);
    }
  }

  /** Every operand is a valid label and is replaced. */
  predicate LabelsOnly(e: Expr) {
    match e
    case Operand(text) => ParseLabel(text).Some? && !EndsInEquals(text)
    case Not(a) => LabelsOnly(a)
    case And(a, b) => LabelsOnly(a) && LabelsOnly(b)
    case Or(a, b) => LabelsOnly(a) && LabelsOnly(b)
  }

  predicate BooleansOnly(e: Expr) {
    match e
    case Operand(text) => text == "true" || text == "false"
    case Not(a) => BooleansOnly(a)
    case And(a, b) => BooleansOnly(a) && BooleansOnly(b)
    case Or(a, b) => BooleansOnly(a) && BooleansOnly(b)
  }

  predicate BooleanValue(e: Expr) {
    match e
    case Operand(text) => text == "true"
    case Not(a) => !BooleanValue(a)
    case And(a, b) => BooleanValue(a) && BooleanValue(b)
    case Or(a, b) => BooleanValue(a) || BooleanValue(b)
  }

  /** The expression with its operands replaced. */
  function Answered(e: Expr, labels: map<string, seq<string>>, matchAny: MatchAny): Expr {
    match e
    case Operand(text) => Operand(Replaced(labels, matchAny, text))
    case Not(a) => Not(Answered(a, labels, matchAny))
    case And(a, b) => And(Answered(a, labels, matchAny), Answered(b, labels, matchAny))
    case Or(a, b) => Or(Answered(a, labels, matchAny), Answered(b, labels, matchAny))
  }

  lemma {:induction false} AnsweredMeans(e: Expr, labels: map<string, seq<string>>, matchAny: MatchAny)
    requires LabelsOnly(e)
    ensures BooleansOnly(Answered(e, labels, matchAny))
    ensures BooleanValue(Answered(e, labels, matchAny)) <==> Denotes(e, labels, matchAny)
  {
    match e {
      case Operand(_) =>
      case Not(a) => AnsweredMeans(a, labels, matchAny);
      case And(a, b) =>
        AnsweredMeans(a, labels, matchAny);
        AnsweredMeans(b, labels, matchAny);
      case Or(a, b) =>
        AnsweredMeans(a, labels, matchAny);
        AnsweredMeans(b, labels, matchAny);
    }
  }

  lemma ReplacedAppend(labels: map<string, seq<string>>, matchAny: MatchAny, a: seq<string>, b: seq<string>)
    ensures ReplacedAll(labels, matchAny, a + b) == ReplacedAll(labels, matchAny, a) + ReplacedAll(labels, matchAny, b)
  {
  }

  lemma OperatorStays(labels: map<string, seq<string>>, matchAny: MatchAny, op: string)
    requires IsOperator(op)
    ensures ReplacedAll(labels, matchAny, [op]) == [op]
  {
    assert op[0] in op && IsSpecial(op[0]);
    if ParseLabel(op).Some? {
      LabelsHaveNoSpecial(op);
    }
  }

  lemma ReplacedInParentheses(labels: map<string, seq<string>>, matchAny: MatchAny, a: seq<string>, op: string,
      b: seq<string>)
    requires IsOperator(op)
    ensures ReplacedAll(labels, matchAny, ["("] + a + [op] + b + [")"])
            == ["("] + ReplacedAll(labels, matchAny, a) + [op] + ReplacedAll(labels, matchAny, b) + [")"]
  {
    OperatorStays(labels, matchAny, "(");
    OperatorStays(labels, matchAny, op);
    OperatorStays(labels, matchAny, ")");
    ReplacedAppend(labels, matchAny, ["("], a);
    ReplacedAppend(labels, matchAny, ["("] + a, [op]);
    ReplacedAppend(labels, matchAny, ["("] + a + [op], b);
    ReplacedAppend(labels, matchAny, ["("] + a + [op] + b, [")"]);
  }

  /** Replacing token by token keeps the structure: operators survive in order. */
  lemma {:induction false} ReplacingIsHomomorphic(e: Expr, labels: map<string, seq<string>>, matchAny: MatchAny)
    ensures ReplacedAll(labels, matchAny, TokensOf(e)) == TokensOf(Answered(e, labels, matchAny))
  {
    match e {
      case Operand(text) =>
        assert ReplacedAll(labels, matchAny, [text]) == [Replaced(labels, matchAny, text)];
      case Not(a) =>
        ReplacingIsHomomorphic(a, labels, matchAny);
        OperatorStays(labels, matchAny, "!");
        ReplacedAppend(labels, matchAny, ["!"], TokensOf(a));
      case And(a, b) =>
        ReplacingIsHomomorphic(a, labels, matchAny);
        ReplacingIsHomomorphic(b, labels, matchAny);
        ReplacedInParentheses(labels, matchAny, TokensOf(a), "&&", TokensOf(b));
      case Or(a, b) =>
        ReplacingIsHomomorphic(a, labels, matchAny);
        ReplacingIsHomomorphic(b, labels, matchAny);
        ReplacedInParentheses(labels, matchAny, TokensOf(a), "||", TokensOf(b));
    }
  }

  // ----- expressions are lists of tokens that can be written and read -----

  predicate WordsOnly(e: Expr) {
    match e
    case Operand(text) => IsWord(text)
    case Not(a) => WordsOnly(a)
    case And(a, b) => WordsOnly(a) && WordsOnly(b)
    case Or(a, b) => WordsOnly(a) && WordsOnly(b)
  }

  lemma ExpressionJoin(a: seq<string>, op: string, b: seq<string>)
    requires IsExpression(a) && IsOperator(op) && IsExpression(b)
    ensures IsExpression(a + [op] + b)
  {
    var s := a + [op] + b;
    forall k | 0 < k < |s|
      ensures IsOperator(s[k - 1]) || IsOperator(s[k])
    {
      if k < |a| {
        assert s[k - 1] == a[k - 1] && s[k] == a[k];
      } else if k > |a| + 1 {
        assert s[k - 1] == b[k - |a| - 2] && s[k] == b[k - |a| - 1];
      } else {
        assert s[|a|] == op;
      }
    }
  }

  lemma {:induction false} TokensOfAreExpression(e: Expr)
    requires WordsOnly(e)
    ensures IsExpression(TokensOf(e))
  {
    assert IsExpression([]);
    match e {
      case Operand(text) =>
      case Not(a) =>
        TokensOfAreExpression(a);
        ExpressionJoin([], "!", TokensOf(a));
        assert [] + ["!"] + TokensOf(a) == TokensOf(e);
      case And(a, b) =>
        TokensOfAreExpression(a);
        TokensOfAreExpression(b);
        InParentheses(TokensOf(a), "&&", TokensOf(b));
      case Or(a, b) =>
        TokensOfAreExpression(a);
        TokensOfAreExpression(b);
        InParentheses(TokensOf(a), "||", TokensOf(b));
    }
  }

  lemma InParentheses(a: seq<string>, op: string, b: seq<string>)
    requires IsExpression(a) && IsOperator(op) && IsExpression(b)
    ensures IsExpression(["("] + a + [op] + b + [")"])
  {
    ExpressionJoin(a, op, b);
    ExpressionJoin([], "(", a + [op] + b);
    ExpressionJoin([] + ["("] + (a + [op] + b), ")", []);
    assert [] + ["("] + (a + [op] + b) + [")"] + [] == ["("] + a + [op] + b + [")"];
  }

  lemma ValidLabelIsWord(text: string)
    requires ParseLabel(text).Some? && !EndsInEquals(text)
    ensures IsWord(text)
  {
    LabelsHaveNoSpecial(text);
    ParsedLabel(text);
    var l := ParseLabel(text).value;
    KeyHasNoOuterBlanks(l.key);
  }

  lemma KeyHasNoOuterBlanks(key: string)
    requires ValidKey(key)
    ensures key != "" && key[0] != ' ' && key[|key| - 1] != ' '
  {
    SplitParts(key, '/');
  }

  lemma {:induction false} LabelsAreWords(e: Expr)
    requires LabelsOnly(e) || BooleansOnly(e)
    ensures WordsOnly(e)
  {
    match e {
      case Operand(text) =>
        if LabelsOnly(e) {
          ValidLabelIsWord(text);
        }
      case Not(a) => LabelsAreWords(a);
      case And(a, b) =>
        LabelsAreWords(a);
        LabelsAreWords(b);
      case Or(a, b) =>
        LabelsAreWords(a);
        LabelsAreWords(b);
    }
  }

  /** Every expression over labels can be written so that the tokenizer reads it back. */
  lemma WrittenExpressionIsRead(e: Expr)
    requires LabelsOnly(e) || BooleansOnly(e)
    ensures Tokens(Text(TokensOf(e))) == TokensOf(e)
  {
    LabelsAreWords(e);
    TokensOfAreExpression(e);
    TokensOfSpaced(TokensOf(e));
  }

  lemma {:induction false} LastOfSpaced(tokens: seq<string>)
    requires tokens != [] && forall t <- tokens :: t != "" && t[0] != ' ' && t[|t| - 1] != ' '
    ensures var s := Text(tokens); s != "" && s[0] != ' ' && s[|s| - 1] != ' '
    decreases |tokens|
  {
    assert tokens[0] in tokens;
    if |tokens| > 1 {
      var rest := tokens[1..];
      assert forall t :: t in rest ==> t in tokens;
      LastOfSpaced(rest);
      SpacedIsText(rest);
    }
  }

  lemma NoOuterBlanks(t: string)
    requires IsOperator(t) || IsWord(t)
    ensures t != "" && t[0] != ' ' && t[|t| - 1] != ' '
  {
  }

  lemma TextIsTrimmed(tokens: seq<string>)
    requires tokens != [] && forall t <- tokens :: t != "" && t[0] != ' ' && t[|t| - 1] != ' '
    ensures TrimSpaces(Spaced(tokens)) == Text(tokens)
  {
    LastOfSpaced(tokens);
    SpacedIsText(tokens);
    var s := Text(tokens);
    TrimAround(s, true, false);
    assert " " + s + "" == " " + s;
  }

  lemma SpacedIsTrimmed(e: Expr)
    requires WordsOnly(e)
    ensures TrimSpaces(Spaced(TokensOf(e))) == Text(TokensOf(e))
  {
    TokensOfAreExpression(e);
    forall t | t in TokensOf(e)
      ensures t != "" && t[0] != ' ' && t[|t| - 1] != ' '
    {
      NoOuterBlanks(t);
    }
    TextIsTrimmed(TokensOf(e));
  }

  /**
   For every way to write an expression over labels, the boolean expression is that
   expression with each label replaced by its match result, written with single blanks.
   */
  lemma BooleanExpressionIs(expr: string, e: Expr, labels: map<string, seq<string>>, matchAny: MatchAny)
    requires LabelsOnly(e) && Tokens(expr) == TokensOf(e)
    ensures BooleanExpression(expr, labels, matchAny) == Text(TokensOf(Answered(e, labels, matchAny)))
  {
    forall t | t in Operands(Tokens(expr))
      ensures ParseLabel(t).Some?
    {
      OperandsAre(Tokens(expr), t);
      OperandIsLabel(e, t);
    }
    ReplacingIsHomomorphic(e, labels, matchAny);
    AnsweredMeans(e, labels, matchAny);
    LabelsAreWords(Answered(e, labels, matchAny));
    SpacedIsTrimmed(Answered(e, labels, matchAny));
  }

  lemma {:induction false} OperandIsLabel(e: Expr, t: string)
    requires LabelsOnly(e) && t in TokensOf(e) && !HasSpecial(t)
    ensures ParseLabel(t).Some?
  {
    OperatorsAreSpecial(t);
    match e {
      case Operand(_) =>
      case Not(a) => OperandIsLabel(a, t);
      case And(a, b) => if t in TokensOf(a) { OperandIsLabel(a, t); } else { OperandIsLabel(b, t); }
      case Or(a, b) => if t in TokensOf(a) { OperandIsLabel(a, t); } else { OperandIsLabel(b, t); }
    }
  }

  lemma OperatorsAreSpecial(t: string)
    ensures IsOperator(t) ==> HasSpecial(t)
  {
    if IsOperator(t) {
      assert t[0] in t && IsSpecial(t[0]);
    }
  }

  // ----- when the labels of an expression are all answered -----

  lemma BooleansAreLabels(b: bool)
    ensures ParseLabel(Bool(b)) == Some(Label(Bool(b), "")) && !EndsInEquals(Bool(b))
  {
    SplitWithout(Bool(b), '=');
    SplitWithout(Bool(b), '/');
  }

  /** Replacing leaves nothing but booleans if and only if every operand is a label that is written as it is read. */
  lemma {:induction false} AnsweredIsBooleanIff(e: Expr, labels: map<string, seq<string>>, matchAny: MatchAny)
    ensures BooleansOnly(Answered(e, labels, matchAny)) <==> LabelsOnly(e)
  {
    match e {
      case Operand(text) =>
        BooleansAreLabels(true);
        BooleansAreLabels(false);
      case Not(a) => AnsweredIsBooleanIff(a, labels, matchAny);
      case And(a, b) =>
        AnsweredIsBooleanIff(a, labels, matchAny);
        AnsweredIsBooleanIff(b, labels, matchAny);
      case Or(a, b) =>
        AnsweredIsBooleanIff(a, labels, matchAny);
        AnsweredIsBooleanIff(b, labels, matchAny);
    }
  }

  /** No operand is mistaken for an operator. */
  predicate PlainOperands(e: Expr) {
    match e
    case Operand(text) => !HasSpecial(text)
    case Not(a) => PlainOperands(a)
    case And(a, b) => PlainOperands(a) && PlainOperands(b)
    case Or(a, b) => PlainOperands(a) && PlainOperands(b)
  }

  /** An operand that is not answered, when there is one. */
  lemma {:induction false} UnansweredOperand(e: Expr) returns (t: string)
    requires PlainOperands(e) && !LabelsOnly(e)
    ensures t in TokensOf(e) && !HasSpecial(t) && (ParseLabel(t).None? || EndsInEquals(t))
  {
    match e
    case Operand(text) => t := text;
    case Not(a) => t := UnansweredOperand(a);
    case And(a, b) => if !LabelsOnly(a) { t := UnansweredOperand(a); } else { t := UnansweredOperand(b); }
    case Or(a, b) => if !LabelsOnly(a) { t := UnansweredOperand(a); } else { t := UnansweredOperand(b); }
  }

  lemma {:induction false} BooleanTokens(b: Expr, t: string)
    requires BooleansOnly(b) && t in TokensOf(b)
    ensures IsOperator(t) || t == "true" || t == "false"
  {
    match b {
      case Operand(_) =>
      case Not(a) => if t != "!" { BooleanTokens(a, t); }
      case And(a, c) => if t in TokensOf(a) { BooleanTokens(a, t); } else if t in TokensOf(c) { BooleanTokens(c, t); }
      case Or(a, c) => if t in TokensOf(a) { BooleanTokens(a, t); } else if t in TokensOf(c) { BooleanTokens(c, t); }
    }
  }

  lemma {:induction false} CharsOfSpaced(tokens: seq<string>, c: char)
    requires c != ' '
    ensures c in Spaced(tokens) <==> exists t <- tokens :: c in t
  {
    if tokens != [] {
      CharsOfSpaced(tokens[1..], c);
      assert forall t :: t in tokens <==> t == tokens[0] || t in tokens[1..];
    }
  }

  lemma {:induction false} TrimKeeps(s: string, c: char)
    requires c != ' ' && c in s
    ensures c in TrimSpaces(s)
    decreases |s|
  {
    if s[0] == ' ' {
      TrimKeeps(s[1..], c);
    } else if s[|s| - 1] == ' ' {
      assert s == s[..|s| - 1] + [' '];
      TrimKeeps(s[..|s| - 1], c);
    }
  }

  lemma BooleanTextHasNoEquals(b: Expr)
    requires BooleansOnly(b)
    ensures '=' !in Text(TokensOf(b))
  {
    SpacedIsText(TokensOf(b));
    CharsOfSpaced(TokensOf(b), '=');
    forall t | t in TokensOf(b)
      ensures '=' !in t
    {
      BooleanTokens(b, t);
    }
  }

  /** A token that ends in "=" is still there in the result. */
  lemma EqualsStays(expr: string, t: string, labels: map<string, seq<string>>, matchAny: MatchAny)
    requires t in Tokens(expr) && EndsInEquals(t) && AllValid(Operands(Tokens(expr)))
    ensures '=' in BooleanExpression(expr, labels, matchAny)
  {
    var tokens := Tokens(expr);
    var replaced := ReplacedAll(labels, matchAny, tokens);
    var k :| 0 <= k < |tokens| && tokens[k] == t;
    assert replaced[k] == t && t in replaced && '=' in t;
    CharsOfSpaced(replaced, '=');
    TrimKeeps(Spaced(replaced), '=');
  }

  /** The library is given some expression over booleans. */
  ghost predicate IsBooleanText(text: string) {
    exists b :: BooleansOnly(b) && text == Text(TokensOf(b))
  }

  lemma UnansweredIsNotBoolean(expr: string, e: Expr, labels: map<string, seq<string>>, matchAny: MatchAny, b: Expr)
    requires PlainOperands(e) && Tokens(expr) == TokensOf(e) && !LabelsOnly(e) && BooleansOnly(b)
    ensures BooleanExpression(expr, labels, matchAny) != Text(TokensOf(b))
  {
    var t := UnansweredOperand(e);
    if AllValid(Operands(Tokens(expr))) {
      OperandsAre(Tokens(expr), t);
      EqualsStays(expr, t, labels, matchAny);
      BooleanTextHasNoEquals(b);
    } else if expr == Text(TokensOf(b)) {
      WrittenExpressionIsRead(b);
      BooleanTokens(b, t);
      OperatorsAreSpecial(t);
      BooleansAreLabels(true);
      BooleansAreLabels(false);
      assert false;
    }
  }

  /**
   However an expression is written, the library is given an expression over booleans if
   and only if every operand is a label that is written as it is read: not if one is
   invalid, when the selector's own text is passed on, and not if one ends in "=" after
   the tokenizer has taken one "=" away.
   */
  lemma BooleanIffLabelsOnly(expr: string, e: Expr, labels: map<string, seq<string>>, matchAny: MatchAny)
    requires PlainOperands(e) && Tokens(expr) == TokensOf(e)
    ensures IsBooleanText(BooleanExpression(expr, labels, matchAny)) <==> LabelsOnly(e)
  {
    if LabelsOnly(e) {
      BooleanExpressionIs(expr, e, labels, matchAny);
      AnsweredIsBooleanIff(e, labels, matchAny);
    } else {
      forall b | BooleansOnly(b)
        ensures BooleanExpression(expr, labels, matchAny) != Text(TokensOf(b))
      {
        UnansweredIsNotBoolean(expr, e, labels, matchAny, b);
      }
    }
  }

  lemma DoubleEqualsToken()
    ensures Tokens("k==") == ["k="]
  {
    assert "k=="[..2] == "k=";
    assert Clean("k==") == "k=";
    TokensOfRun("k==", "");
    assert "k==" + "" == "k==";
  }

  lemma KEqualsIsALabel()
    ensures ParseLabel("k=") == Some(Label("k", ""))
  {
    SplitAtFirst("k", '=', "");
    SplitWithout("k", '/');
    assert "k" + ['='] + "" == "k=";
    assert ValidKey("k");
  }

  lemma SpacedOne(t: string)
    requires t != "" && t[0] != ' ' && t[|t| - 1] != ' '
    ensures TrimSpaces(Spaced([t])) == t
  {
    TrimAround(t, true, false);
    assert [t][1..] == [];
    assert Spaced([t]) == " " + t + "";
  }

  /** A label written with two "=" at its end is a valid operand that holds and is not replaced. */
  lemma DoubleEqualsIsNotReplaced(labels: map<string, seq<string>>, matchAny: MatchAny)
    requires "k" in labels
    ensures Tokens("k==") == ["k="] && ParseLabel("k=") == Some(Label("k", ""))
    ensures Holds(labels, matchAny, Label("k", ""))
    ensures BooleanExpression("k==", labels, matchAny) == "k="
  {
    DoubleEqualsToken();
    KEqualsIsALabel();
    forall t | t in Operands(["k="])
      ensures ParseLabel(t).Some?
    {
      OperandsAre(["k="], t);
    }
    assert ReplacedAll(labels, matchAny, ["k="]) == ["k="];
    SpacedOne("k=");
  }

  // ----- matching -----

  datatype GvalResult = Boolean(b: bool) | NotBoolean | EvaluationError

  type Evaluator = string -> GvalResult

  /** What is relied on from the library: it evaluates fully parenthesised boolean expressions. */
  ghost predicate EvaluatesBooleans(evaluate: Evaluator) {
    forall e: Expr :: BooleansOnly(e) ==> evaluate(Text(TokensOf(e))) == Boolean(BooleanValue(e))
  }

  /** What the first valid include label of the list says. */
  function OverrideIn(parsed: seq<Option<Label>>): Option<bool> {
    if parsed == [] then None
    else if parsed[0].None? || parsed[0].value.key != IncludeLabel then OverrideIn(parsed[1..])
    else if parsed[0].value.value == "always" then Some(true)
    else if parsed[0].value.value == "never" then Some(false)
    else None
  }

  function Override(labels: seq<string>): Option<bool> {
    OverrideIn(Parsed(labels))
  }

  function FirstInclude(values: seq<string>): Option<bool> {
    if values == [] then None
    else if values[0] == "always" then Some(true)
    else if values[0] == "never" then Some(false)
    else None
  }

  lemma {:induction false} ValuesFromTheFront(first: Option<Label>, rest: seq<Option<Label>>, key: string)
    ensures ValuesIn([first] + rest, key) ==
            (if first.Some? && first.value.key == key then [first.value.value] else []) + ValuesIn(rest, key)
    decreases |rest|
  {
    if rest == [] {
      ValuesOneMore([], first, key);
      assert [first] + rest == [] + [first];
    } else {
      var init, last := rest[..|rest| - 1], rest[|rest| - 1];
      ValuesFromTheFront(first, init, key);
      ValuesOneMore([first] + init, last, key);
      ValuesOneMore(init, last, key);
      assert ([first] + init) + [last] == [first] + rest && init + [last] == rest;
    }
  }

  lemma {:induction false} FirstIncludeOverrides(parsed: seq<Option<Label>>)
    ensures FirstInclude(ValuesIn(parsed, IncludeLabel)) == OverrideIn(parsed)
  {
    if parsed != [] {
      FirstIncludeOverrides(parsed[1..]);
      assert parsed == [parsed[0]] + parsed[1..];
      ValuesFromTheFront(parsed[0], parsed[1..], IncludeLabel);
    }
  }

  /** The values that the list gives the include label decide as its first valid include label does. */
  lemma OverrideIsFirstInclude(labels: seq<string>)
    ensures Override(labels) ==
            FirstInclude(if IncludeLabel in ByKey(labels) then ByKey(labels)[IncludeLabel] else [])
  {
    FirstIncludeOverrides(Parsed(labels));
    ByKeyIsValuesOf(labels, IncludeLabel);
  }

  /** This is the first valid label with the include label's key, and it has this value. */
  predicate FirstIncludeAt(parsed: seq<Option<Label>>, k: nat, value: string) {
    && k < |parsed|
    && parsed[k] == Some(Label("konveyor.io/include", value))
    && forall j :: 0 <= j < k ==> parsed[j].None? || parsed[j].value.key != "konveyor.io/include"
  }

  lemma FirstIncludeMoves(parsed: seq<Option<Label>>, value: string)
    requires parsed != []
    ensures
      (exists k :: FirstIncludeAt(parsed, k, value)) <==>
        if parsed[0].Some? && parsed[0].value.key == "konveyor.io/include" then parsed[0].value.value == value
        else exists k :: FirstIncludeAt(parsed[1..], k, value)
  {
    if parsed[0].Some? && parsed[0].value.key == "konveyor.io/include" {
      if parsed[0].value.value == value {
        assert FirstIncludeAt(parsed, 0, value);
      }
    } else {
      if k: nat :| FirstIncludeAt(parsed, k, value) {
        assert FirstIncludeAt(parsed[1..], k - 1, value);
      }
      if k: nat :| FirstIncludeAt(parsed[1..], k, value) {
        assert forall j :: 0 < j <= k + 1 ==> parsed[j] == parsed[1..][j - 1];
        assert FirstIncludeAt(parsed, k + 1, value);
      }
    }
  }

  lemma {:induction false} OverrideInSays(parsed: seq<Option<Label>>)
    ensures OverrideIn(parsed) == Some(true) <==> exists k :: FirstIncludeAt(parsed, k, "always")
    ensures OverrideIn(parsed) == Some(false) <==> exists k :: FirstIncludeAt(parsed, k, "never")
  {
    if parsed != [] {
      OverrideInSays(parsed[1..]);
      FirstIncludeMoves(parsed, "always");
      FirstIncludeMoves(parsed, "never");
    }
  }

  /** "always" overrides with a match and "never" with none; any other value overrides nothing. */
  lemma OverrideSays(labels: seq<string>)
    ensures Override(labels) == Some(true) <==> exists k :: FirstIncludeAt(Parsed(labels), k, "always")
    ensures Override(labels) == Some(false) <==> exists k :: FirstIncludeAt(Parsed(labels), k, "never")
  {
    OverrideInSays(Parsed(labels));
  }

  /** `Matches`: `None` is an error. */
  method Matches(evaluate: Evaluator, expr: string, matchAny: MatchAny, labels: seq<string>)
      returns (result: Option<bool>)
    ensures Override(labels).Some? ==> result == Override(labels)
    ensures Override(labels).None? ==>
      result == match evaluate(BooleanExpression(expr, ByKey(labels), matchAny))
                case Boolean(b) => Some(b)
                case NotBoolean => Some(false)
                case EvaluationError => None
  {
    OverrideIsFirstInclude(labels);
    var ruleLabels, _ := ParseLabels(labels);
    if IncludeLabel in ruleLabels && |ruleLabels[IncludeLabel]| > 0 {
      if ruleLabels[IncludeLabel][0] == "always" {
        return Some(true);
      } else if ruleLabels[IncludeLabel][0] == "never" {
        return Some(false);
      }
    }
    var boolExpr := GetBooleanExpression(expr, ruleLabels, matchAny);
    var val := evaluate(boolExpr);
    match val {
      case EvaluationError => result := None;
      case NotBoolean => result := Some(false);
      case Boolean(b) => result := Some(b);
    }
  }

  /**
   Without an include override a selector matches exactly when the labels satisfy its
   expression, however the expression is written.
   */
  lemma SelectorMeansItsExpression(evaluate: Evaluator, expr: string, e: Expr, matchAny: MatchAny, labels: seq<string>)
    requires EvaluatesBooleans(evaluate) && LabelsOnly(e) && Tokens(expr) == TokensOf(e)
    ensures evaluate(BooleanExpression(expr, ByKey(labels), matchAny)) == Boolean(Satisfies(e, labels, matchAny))
  {
    DenotesIsSatisfies(e, labels, matchAny);
    BooleanExpressionIs(expr, e, ByKey(labels), matchAny);
    AnsweredMeans(e, ByKey(labels), matchAny);
  }

  // ----- the reliance on the library can be met -----

  /** Reads one expression from the front of the tokens. */
  function ReadExpression(tokens: seq<string>): (r: Option<(bool, seq<string>)>)
    ensures r.Some? ==> |r.value.1| < |tokens|
    decreases |tokens|
  {
    if tokens == [] then None
    else if tokens[0] == "true" then Some((true, tokens[1..]))
    else if tokens[0] == "false" then Some((false, tokens[1..]))
    else if tokens[0] == "!" then
      match ReadExpression(tokens[1..])
      case Some((a, rest)) => Some((!a, rest))
      case None => None
    else if tokens[0] == "(" then
      match ReadExpression(tokens[1..])
      case Some((a, after)) =>
        if after == [] || after[0] !in ["&&", "||"] then None
        else
          (match ReadExpression(after[1..])
           case Some((b, end)) =>
             if end == [] || end[0] != ")" then None
             else Some((if after[0] == "&&" then a && b else a || b, end[1..]))
           case None => None)
      case None => None
    else None
  }

  function Evaluate(s: string): GvalResult {
    match ReadExpression(Tokens(s))
    case Some((b, rest)) => if rest == [] then Boolean(b) else EvaluationError
    case None => EvaluationError
  }

  lemma ReadsPair(all: seq<string>, op: string, x: (bool, seq<string>), y: (bool, seq<string>))
    requires all != [] && all[0] == "(" && op in ["&&", "||"] && ReadExpression(all[1..]) == Some(x)
    requires x.1 != [] && x.1[0] == op && ReadExpression(x.1[1..]) == Some(y)
    requires y.1 != [] && y.1[0] == ")"
    ensures ReadExpression(all) == Some((if op == "&&" then x.0 && y.0 else x.0 || y.0, y.1[1..]))
  {
  }

  lemma PairParts(a: seq<string>, op: string, b: seq<string>, rest: seq<string>)
      returns (after: seq<string>, end: seq<string>)
    ensures end == [")"] + rest && after == [op] + (b + end)
    ensures (["("] + a + [op] + b + [")"] + rest)[1..] == a + after
    ensures after[1..] == b + end && end[1..] == rest
  {
    end := [")"] + rest;
    after := [op] + (b + end);
    assert ["("] + a + [op] + b + [")"] + rest == ["("] + (a + after);
  }

  lemma {:induction false} ReadsWhatWasWritten(e: Expr, rest: seq<string>)
    requires BooleansOnly(e)
    ensures ReadExpression(TokensOf(e) + rest) == Some((BooleanValue(e), rest))
    decreases e
  {
    match e {
      case Operand(text) =>
        assert ([text] + rest)[1..] == rest;
      case Not(a) =>
        ReadsWhatWasWritten(a, rest);
        assert (TokensOf(e) + rest)[1..] == TokensOf(a) + rest;
      case And(a, b) =>
        var after, end := PairParts(TokensOf(a), "&&", TokensOf(b), rest);
        ReadsWhatWasWritten(a, after);
        ReadsWhatWasWritten(b, end);
        ReadsPair(TokensOf(e) + rest, "&&", (BooleanValue(a), after), (BooleanValue(b), end));
      case Or(a, b) =>
        var after, end := PairParts(TokensOf(a), "||", TokensOf(b), rest);
        ReadsWhatWasWritten(a, after);
        ReadsWhatWasWritten(b, end);
        ReadsPair(TokensOf(e) + rest, "||", (BooleanValue(a), after), (BooleanValue(b), end));
    }
  }

  /** There is an evaluator that does what is relied on. */
  lemma SomeEvaluatorEvaluatesBooleans()
    ensures EvaluatesBooleans(Evaluate)
  {
    forall e: Expr | BooleansOnly(e)
      ensures Evaluate(Text(TokensOf(e))) == Boolean(BooleanValue(e))
    {
      WrittenExpressionIsRead(e);
      ReadsWhatWasWritten(e, []);
      assert TokensOf(e) + [] == TokensOf(e);
    }
  }
}
