/**
 * The message catalogue for express-validator rules and `appendValidation`,
 * which builds the validation chain for one request field from a list of
 * rule names.
 *
 * Each template is written with the placeholder spelled through `Attribute`
 * and with any further placeholder as a piece of its own; the strings are
 * the catalogue's, character for character.
 */
module ValidationMessage {
  import opened Wrappers
  import opened Text

  /** The placeholder a template names its field with. */
  const Attribute := ":attribute"

  const ContainsTemplate := ""
  const EqualsTemplate := ""
  const IsAlphaTemplate := "The " + Attribute + " may only contain letters."
  const IsAlphanumericTemplate := "The " + Attribute + " may only contain letters and numbers."
  const IsDecimalTemplate := "The " + Attribute + " must be a decimal."
  const IsEmailTemplate := "The " + Attribute + " must be a valid email address."
  const IsFloatTemplate := "The " + Attribute + " must be a float."
  const IsInTemplate := Attribute + (" must in " + ":inner")
  const IsIntTemplate := "The " + Attribute + " must be an integer."
  const IsIPTemplate := "The " + Attribute + " must be a valid IP address."
  const IsIPv4Template := "The " + Attribute + " must be a valid IPv4 address."
  const IsIPv6Template := "The " + Attribute + " must be a valid IPv6 address."
  const IsLowercaseTemplate := "The " + Attribute + " must be a lowercase."
  const IsNullTemplate := "The " + Attribute + " is empty."
  const IsNumericTemplate := "The " + Attribute + " must be a number."
  const IsUppercaseTemplate := "The " + Attribute + " must be a uppercase."
  const IsUrlTemplate := "The " + Attribute + " format is invalid."
  const IsUUIDTemplate := "The " + Attribute + " must be a valid UUID."
  const LenTemplate := ""
  const NotContainsTemplate := ""
  const NotEmptyTemplate := "The " + Attribute + " is required."
  const NotInTemplate := "The selected " + Attribute + " is invalid."
  const NotNullTemplate := "The " + Attribute + " is required."
  const ExistTemplate := "The " + Attribute + (" " + ":value" + " already exist.")
  const IsBooleanTemplate := "The " + Attribute + " must be a boolean."
  const IsDateTemplate := "The " + Attribute + " must be a date."
  const IsLengthTemplate := "The " + Attribute + (" must contain a minimum of " + ":min" + " and a maximum of " + ":max")
  const MatchesTemplate := Attribute + (" must contain a minimum of " + ":matches")
  const IsStringTemplate := Attribute + " must be string"
  const IsArrayTemplate := Attribute + " must be array"

  /** `msg`: a message template per rule name; an empty template attaches no message. */
  const Templates: map<string, string> :=
    map[
      "contains" :=         ContainsTemplate,
      "equals" :=           EqualsTemplate,
      "isAlpha" :=          IsAlphaTemplate,
      "isAlphanumeric" :=   IsAlphanumericTemplate,
      "isDecimal" :=        IsDecimalTemplate,
      "isEmail" :=          IsEmailTemplate,
      "isFloat" :=          IsFloatTemplate,
      "isIn" :=             IsInTemplate,
      "isInt" :=            IsIntTemplate,
      "isIP" :=             IsIPTemplate,
      "isIPv4" :=           IsIPv4Template,
      "isIPv6" :=           IsIPv6Template,
      "isLowercase" :=      IsLowercaseTemplate,
      "isNull" :=           IsNullTemplate,
      "isNumeric" :=        IsNumericTemplate,
      "isUppercase" :=      IsUppercaseTemplate,
      "isUrl" :=            IsUrlTemplate,
      "isUUID" :=           IsUUIDTemplate,
      "len" :=              LenTemplate,
      "notContains" :=      NotContainsTemplate,
      "notEmpty" :=         NotEmptyTemplate,
      "notIn" :=            NotInTemplate,
      "notNull" :=          NotNullTemplate,

      // rules the project adds to the catalogue itself
      "exist" :=            ExistTemplate,
      "isBoolean" :=        IsBooleanTemplate,
      "isDate" :=           IsDateTemplate,
      "isLength" :=         IsLengthTemplate,
      "matches" :=          MatchesTemplate,
      "isString" :=         IsStringTemplate,
      "isArray" :=          IsArrayTemplate
    ]

  /**
   * `msg[v]` is truthy: the rule has a non-empty template, and the message
   * is the template with its first `:attribute` replaced by the field name.
   */
  function MessageFor(rule: string, attr: string): (m: Option<string>)
    ensures m.None? <==> rule !in Templates || Templates[rule] == ""
  {
    if rule in Templates && Templates[rule] != "" then
      Some(ReplaceFirst(Templates[rule], Attribute, attr))
    else
      None
  }

  /**
   * Where a template's first `:attribute` sits: after text without a `:`
   * that ends in a space unless empty, and before text that starts with a
   * space unless empty and holds no further `:attribute`.
   */
  ghost predicate Placed(p: string, q: string)
  {
    && ':' !in p && (p == [] || p[|p| - 1] == ' ')
    && (q == [] || q[0] == ' ') && !Contains(q, Attribute)
  }

  /** Every non-empty template is placed that way around its `:attribute`. */
  lemma TemplateForm(rule: string) returns (p: string, q: string)
    requires rule in Templates && Templates[rule] != ""
    ensures Templates[rule] == p + Attribute + q && Placed(p, q)
  {
    if rule == "isAlpha" {
      p, q := IsAlphaForm();
    } else if rule == "isAlphanumeric" {
      p, q := IsAlphanumericForm();
    } else if rule == "isDecimal" {
      p, q := IsDecimalForm();
    } else if rule == "isEmail" {
      p, q := IsEmailForm();
    } else if rule == "isFloat" {
      p, q := IsFloatForm();
    } else if rule == "isIn" {
      p, q := IsInForm();
    } else if rule == "isInt" {
      p, q := IsIntForm();
    } else if rule == "isIP" {
      p, q := IsIPForm();
    } else if rule == "isIPv4" {
      p, q := IsIPv4Form();
    } else if rule == "isIPv6" {
      p, q := IsIPv6Form();
    } else if rule == "isLowercase" {
      p, q := IsLowercaseForm();
    } else if rule == "isNull" {
      p, q := IsNullForm();
    } else if rule == "isNumeric" {
      p, q := IsNumericForm();
    } else if rule == "isUppercase" {
      p, q := IsUppercaseForm();
    } else if rule == "isUrl" {
      p, q := IsUrlForm();
    } else if rule == "isUUID" {
      p, q := IsUUIDForm();
    } else if rule == "notEmpty" {
      p, q := NotEmptyForm();
    } else if rule == "notIn" {
      p, q := NotInForm();
    } else if rule == "notNull" {
      p, q := NotNullForm();
    } else if rule == "exist" {
      p, q := ExistForm();
    } else if rule == "isBoolean" {
      p, q := IsBooleanForm();
    } else if rule == "isDate" {
      p, q := IsDateForm();
    } else if rule == "isLength" {
      p, q := IsLengthForm();
    } else if rule == "matches" {
      p, q := MatchesForm();
    } else if rule == "isString" {
      p, q := IsStringForm();
    } else {
      assert rule == "isArray";
      p, q := IsArrayForm();
    }
  }

  lemma IsAlphaForm() returns (p: string, q: string)
    ensures Templates["isAlpha"] == p + Attribute + q && Placed(p, q)
  {
    p, q := "The ", " may only contain letters.";
    NoMatchWithoutFirst(" may only contain letters.", Attribute);
  }

  lemma IsAlphanumericForm() returns (p: string, q: string)
    ensures Templates["isAlphanumeric"] == p + Attribute + q && Placed(p, q)
  {
    p, q := "The ", " may only contain letters and numbers.";
    NoMatchWithoutFirst(" may only contain letters and numbers.", Attribute);
  }

  lemma IsDecimalForm() returns (p: string, q: string)
    ensures Templates["isDecimal"] == p + Attribute + q && Placed(p, q)
  {
    p, q := "The ", " must be a decimal.";
    NoMatchWithoutFirst(" must be a decimal.", Attribute);
  }

  lemma IsEmailForm() returns (p: string, q: string)
    ensures Templates["isEmail"] == p + Attribute + q && Placed(p, q)
  {
    p, q := "The ", " must be a valid email address.";
    NoMatchWithoutFirst(" must be a valid email address.", Attribute);
  }

  lemma IsFloatForm() returns (p: string, q: string)
    ensures Templates["isFloat"] == p + Attribute + q && Placed(p, q)
  {
    p, q := "The ", " must be a float.";
    NoMatchWithoutFirst(" must be a float.", Attribute);
  }

  lemma IsInForm() returns (p: string, q: string)
    ensures Templates["isIn"] == p + Attribute + q && Placed(p, q)
    ensures p == "" && q == " must in " + ":inner"
  {
    p, q := "", " must in " + ":inner";
    NoMatchWithoutFirst(" must in ", Attribute);
    NoMatchShorter(":inner", Attribute);
    NoMatchJoin(" must in ", ":inner", Attribute);
  }

  lemma IsIntForm() returns (p: string, q: string)
    ensures Templates["isInt"] == p + Attribute + q && Placed(p, q)
  {
    p, q := "The ", " must be an integer.";
    NoMatchWithoutFirst(" must be an integer.", Attribute);
  }

  lemma IsIPForm() returns (p: string, q: string)
    ensures Templates["isIP"] == p + Attribute + q && Placed(p, q)
  {
    p, q := "The ", " must be a valid IP address.";
    NoMatchWithoutFirst(" must be a valid IP address.", Attribute);
  }

  lemma IsIPv4Form() returns (p: string, q: string)
    ensures Templates["isIPv4"] == p + Attribute + q && Placed(p, q)
  {
    p, q := "The ", " must be a valid IPv4 address.";
    NoMatchWithoutFirst(" must be a valid IPv4 address.", Attribute);
  }

  lemma IsIPv6Form() returns (p: string, q: string)
    ensures Templates["isIPv6"] == p + Attribute + q && Placed(p, q)
  {
    p, q := "The ", " must be a valid IPv6 address.";
    NoMatchWithoutFirst(" must be a valid IPv6 address.", Attribute);
  }

  lemma IsLowercaseForm() returns (p: string, q: string)
    ensures Templates["isLowercase"] == p + Attribute + q && Placed(p, q)
  {
    p, q := "The ", " must be a lowercase.";
    NoMatchWithoutFirst(" must be a lowercase.", Attribute);
  }

  lemma IsNullForm() returns (p: string, q: string)
    ensures Templates["isNull"] == p + Attribute + q && Placed(p, q)
  {
    p, q := "The ", " is empty.";
    NoMatchWithoutFirst(" is empty.", Attribute);
  }

  lemma IsNumericForm() returns (p: string, q: string)
    ensures Templates["isNumeric"] == p + Attribute + q && Placed(p, q)
  {
    p, q := "The ", " must be a number.";
    NoMatchWithoutFirst(" must be a number.", Attribute);
  }

  lemma IsUppercaseForm() returns (p: string, q: string)
    ensures Templates["isUppercase"] == p + Attribute + q && Placed(p, q)
  {
    p, q := "The ", " must be a uppercase.";
    NoMatchWithoutFirst(" must be a uppercase.", Attribute);
  }

  lemma IsUrlForm() returns (p: string, q: string)
    ensures Templates["isUrl"] == p + Attribute + q && Placed(p, q)
  {
    p, q := "The ", " format is invalid.";
    NoMatchWithoutFirst(" format is invalid.", Attribute);
  }

  lemma IsUUIDForm() returns (p: string, q: string)
    ensures Templates["isUUID"] == p + Attribute + q && Placed(p, q)
  {
    p, q := "The ", " must be a valid UUID.";
    NoMatchWithoutFirst(" must be a valid UUID.", Attribute);
  }

  lemma NotEmptyForm() returns (p: string, q: string)
    ensures Templates["notEmpty"] == p + Attribute + q && Placed(p, q)
  {
    p, q := "The ", " is required.";
    NoMatchWithoutFirst(" is required.", Attribute);
  }

  lemma NotInForm() returns (p: string, q: string)
    ensures Templates["notIn"] == p + Attribute + q && Placed(p, q)
  {
    p, q := "The selected ", " is invalid.";
    NoMatchWithoutFirst(" is invalid.", Attribute);
  }

  lemma NotNullForm() returns (p: string, q: string)
    ensures Templates["notNull"] == p + Attribute + q && Placed(p, q)
  {
    p, q := "The ", " is required.";
    NoMatchWithoutFirst(" is required.", Attribute);
  }

  lemma ExistForm() returns (p: string, q: string)
    ensures Templates["exist"] == p + Attribute + q && Placed(p, q)
    ensures p == "The " && q == " " + ":value" + " already exist."
  {
    p, q := "The ", " " + ":value" + " already exist.";
    NoMatchWithoutFirst(" ", Attribute);
    NoMatchShorter(":value", Attribute);
    NoMatchJoin(" ", ":value", Attribute);
    NoMatchWithoutFirst(" already exist.", Attribute);
    NoMatchJoinRight(" " + ":value", " already exist.", Attribute);
  }

  lemma IsBooleanForm() returns (p: string, q: string)
    ensures Templates["isBoolean"] == p + Attribute + q && Placed(p, q)
  {
    p, q := "The ", " must be a boolean.";
    NoMatchWithoutFirst(" must be a boolean.", Attribute);
  }

  lemma IsDateForm() returns (p: string, q: string)
    ensures Templates["isDate"] == p + Attribute + q && Placed(p, q)
  {
    p, q := "The ", " must be a date.";
    NoMatchWithoutFirst(" must be a date.", Attribute);
  }

  lemma IsLengthForm() returns (p: string, q: string)
    ensures Templates["isLength"] == p + Attribute + q && Placed(p, q)
    ensures p == "The " && q == " must contain a minimum of " + ":min" + " and a maximum of " + ":max"
  {
    p, q := "The ", " must contain a minimum of " + ":min" + " and a maximum of " + ":max";
    NoMatchWithoutFirst(" must contain a minimum of ", Attribute);
    NoMatchShorter(":min", Attribute);
    NoMatchJoin(" must contain a minimum of ", ":min", Attribute);
    NoMatchWithoutFirst(" and a maximum of ", Attribute);
    NoMatchJoinRight(" must contain a minimum of " + ":min", " and a maximum of ", Attribute);
    NoMatchShorter(":max", Attribute);
    NoMatchJoin(" must contain a minimum of " + ":min" + " and a maximum of ", ":max", Attribute);
  }

  lemma MatchesForm() returns (p: string, q: string)
    ensures Templates["matches"] == p + Attribute + q && Placed(p, q)
    ensures p == "" && q == " must contain a minimum of " + ":matches"
  {
    p, q := "", " must contain a minimum of " + ":matches";
    NoMatchWithoutFirst(" must contain a minimum of ", Attribute);
    NoMatchShorter(":matches", Attribute);
    NoMatchJoin(" must contain a minimum of ", ":matches", Attribute);
  }

  lemma IsStringForm() returns (p: string, q: string)
    ensures Templates["isString"] == p + Attribute + q && Placed(p, q)
  {
    p, q := "", " must be string";
    NoMatchWithoutFirst(" must be string", Attribute);
  }

  lemma IsArrayForm() returns (p: string, q: string)
    ensures Templates["isArray"] == p + Attribute + q && Placed(p, q)
  {
    p, q := "", " must be array";
    NoMatchWithoutFirst(" must be array", Attribute);
  }

  /**
   * The message of a template placed around its `:attribute`: the template
   * with that placeholder replaced by the field name and everything else,
   * later placeholders included, as written. It names the field, and it
   * holds `:attribute` only if the field name does.
   */
  lemma PlacedMessage(rule: string, attr: string, p: string, q: string)
    requires rule in Templates && Templates[rule] == p + Attribute + q && Placed(p, q)
    ensures Contains(Templates[rule], Attribute)
    ensures MessageFor(rule, attr) == Some(p + attr + q)
    ensures Contains(p + attr + q, attr)
    ensures Contains(p + attr + q, Attribute) ==> Contains(attr, Attribute)
  {
    ReplaceFirstSplice(p, q, Attribute, attr);
  }

  /**
   * Every message is its template with only the first `:attribute`
   * replaced; every non-empty template has that placeholder, so every
   * message names its field.
   */
  lemma TemplatedMessage(rule: string, attr: string) returns (p: string, q: string)
    requires rule in Templates && Templates[rule] != ""
    ensures Contains(Templates[rule], Attribute)
    ensures Templates[rule] == p + Attribute + q && ':' !in p && !Contains(q, Attribute)
    ensures MessageFor(rule, attr) == Some(p + attr + q)
    ensures Contains(MessageFor(rule, attr).value, attr)
    ensures Contains(MessageFor(rule, attr).value, Attribute) ==> Contains(attr, Attribute)
  {
    p, q := TemplateForm(rule);
    PlacedMessage(rule, attr, p, q);
  }

  /** The templates that carry placeholders besides `:attribute` keep them. */
  lemma IsInKeepsInner(attr: string)
    ensures MessageFor("isIn", attr) == Some(attr + " must in " + ":inner")
  {
    var p, q := IsInForm();
    PlacedMessage("isIn", attr, p, q);
    assert p + attr + q == attr + " must in " + ":inner";
  }

  lemma ExistKeepsValue(attr: string)
    ensures MessageFor("exist", attr) == Some("The " + attr + " " + ":value" + " already exist.")
  {
    var p, q := ExistForm();
    PlacedMessage("exist", attr, p, q);
    assert p + attr + q == "The " + attr + " " + ":value" + " already exist.";
  }

  lemma IsLengthKeepsBounds(attr: string)
    ensures MessageFor("isLength", attr)
            == Some("The " + attr + " must contain a minimum of " + ":min" + " and a maximum of " + ":max")
  {
    var p, q := IsLengthForm();
    PlacedMessage("isLength", attr, p, q);
    assert p + attr + q == "The " + attr + " must contain a minimum of " + ":min" + " and a maximum of " + ":max";
  }

  lemma MatchesKeepsPattern(attr: string)
    ensures MessageFor("matches", attr) == Some(attr + " must contain a minimum of " + ":matches")
  {
    var p, q := MatchesForm();
    PlacedMessage("matches", attr, p, q);
    assert p + attr + q == attr + " must contain a minimum of " + ":matches";
  }

  /** The rules whose template is empty: they are applied without a message. */
  lemma EmptyTemplates(rule: string, attr: string)
    ensures rule in Templates && Templates[rule] == "" <==>
              rule == "contains" || rule == "equals" || rule == "len" || rule == "notContains"
    ensures rule in Templates && Templates[rule] == "" ==> MessageFor(rule, attr) == None
  {
  }

  // ---------------------------------------------------------------------
  // The validation chain
  // ---------------------------------------------------------------------

  /** A rule applied to the chain, with the message attached to it, if any. */
  datatype AppliedRule = AppliedRule(rule: string, message: Option<string>)

  /**
   * The chain `body(attr)` returns: the field it checks, the names it
   * answers to as methods (validators and sanitizers), and the rules
   * applied to it so far, in order.
   */
  class ValidationChain {
    const field: string
    const methods: set<string>
    var rules: seq<AppliedRule>

    /** `body(field)`: a fresh chain with no rules. */
    constructor (field: string, methods: set<string>)
      ensures this.field == field && this.methods == methods && rules == []
    {
      this.field := field;
      this.methods := methods;
      rules := [];
    }

    /** `chain[rule]()`: the rule is applied with its default message. */
    method Apply(rule: string)
      requires rule in methods
      modifies this
      ensures rules == old(rules) + [AppliedRule(rule, None)]
    {
      rules := rules + [AppliedRule(rule, None)];
    }

    /** `chain.withMessage(message)`: the message goes to the last rule applied. */
    method WithMessage(message: string)
      requires rules != []
      modifies this
      ensures rules == old(rules[..|rules| - 1]) + [AppliedRule(old(rules[|rules| - 1].rule), Some(message))]
    {
      rules := rules[..|rules| - 1] + [AppliedRule(rules[|rules| - 1].rule, Some(message))];
    }
  }

  /** What one rule name adds to the chain: nothing unless it names a method. */
  function RuleStep(attr: string, rule: string, methods: set<string>): seq<AppliedRule>
  {
    if rule in methods then [AppliedRule(rule, MessageFor(rule, attr))] else []
  }

  /** The rules a chain for `attr` holds after `names` have been processed in order. */
  function AppliedRules(attr: string, names: seq<string>, methods: set<string>): seq<AppliedRule>
  {
    if names == [] then []
    else AppliedRules(attr, names[..|names| - 1], methods) + RuleStep(attr, names[|names| - 1], methods)
  }

  /**
   * `appendValidation(attr, validation)`: every name the chain answers to
   * is applied, in the order given, and gets the message of its template
   * when that is not empty; any other name is skipped.
   */
  method AppendValidation(attr: string, validation: seq<string>, methods: set<string>)
    returns (chain: ValidationChain)
    ensures fresh(chain)
    ensures chain.field == attr && chain.methods == methods
    ensures chain.rules == AppliedRules(attr, validation, methods)
    ensures validation == [] ==> chain.rules == []
  {
    chain := new ValidationChain(attr, methods);
    for i := 0 to |validation|
      invariant chain.field == attr && chain.methods == methods
      invariant chain.rules == AppliedRules(attr, validation[..i], methods)
    {
      var v := validation[i];
      assert validation[..i + 1][..i] == validation[..i];
      if v in chain.methods {
        chain.Apply(v);
        if v in Templates && Templates[v] != "" {
          var message := ReplaceFirst(Templates[v], Attribute, attr);
          chain.WithMessage(message);
        }
      }
    }
    assert validation[..|validation|] == validation;
  }

  /** The rules of two lists processed one after the other. */
  lemma {:induction false} AppliedRulesAppend(attr: string, a: seq<string>, b: seq<string>, methods: set<string>)
    ensures AppliedRules(attr, a + b, methods) == AppliedRules(attr, a, methods) + AppliedRules(attr, b, methods)
    decreases |b|
  {
    if b == [] {
      assert a + b == a;
    } else {
      var b' := b[..|b| - 1];
      assert (a + b)[..|a + b| - 1] == a + b';
      AppliedRulesAppend(attr, a, b', methods);
    }
  }

  /** The names of a list of applied rules. */
  function RuleNames(rules: seq<AppliedRule>): (names: seq<string>)
    ensures |names| == |rules|
    ensures forall k :: 0 <= k < |rules| ==> names[k] == rules[k].rule
  {
    if rules == [] then [] else [rules[0].rule] + RuleNames(rules[1..])
  }

  /** The names in `names` that are in `methods`, in their order, repeats kept. */
  function Keep(names: seq<string>, methods: set<string>): (kept: seq<string>)
    ensures |kept| <= |names|
    ensures forall k :: 0 <= k < |kept| ==> kept[k] in methods
  {
    if names == [] then []
    else (if names[0] in methods then [names[0]] else []) + Keep(names[1..], methods)
  }

  /**
   * The chain applies exactly the names it answers to, in the order of the
   * list, each as often as the list names it.
   */
  lemma {:induction false} AppliedInOrder(attr: string, names: seq<string>, methods: set<string>)
    ensures RuleNames(AppliedRules(attr, names, methods)) == Keep(names, methods)
    decreases |names|
  {
    if names != [] {
      assert names == [names[0]] + names[1..];
      AppliedRulesAppend(attr, [names[0]], names[1..], methods);
      assert AppliedRules(attr, [names[0]], methods) == RuleStep(attr, names[0], methods);
      AppliedInOrder(attr, names[1..], methods);
      RuleNamesAppend(RuleStep(attr, names[0], methods), AppliedRules(attr, names[1..], methods));
    }
  }

  lemma {:induction false} RuleNamesAppend(a: seq<AppliedRule>, b: seq<AppliedRule>)
    ensures RuleNames(a + b) == RuleNames(a) + RuleNames(b)
    decreases |a|
  {
    if a != [] {
      assert (a + b)[1..] == a[1..] + b;
      RuleNamesAppend(a[1..], b);
    }
  }

  /**
   * Every applied rule is a method of the chain and carries the message of
   * its template, or none when the template is missing or empty.
   */
  lemma {:induction false} AppliedRuleMessages(attr: string, names: seq<string>, methods: set<string>)
    ensures forall r :: r in AppliedRules(attr, names, methods) ==>
              r.rule in methods && r.rule in names && r.message == MessageFor(r.rule, attr)
    decreases |names|
  {
    if names != [] {
      var init := names[..|names| - 1];
      AppliedRuleMessages(attr, init, methods);
      assert forall n :: n in init ==> n in names;
      assert names[|names| - 1] in names;
    }
  }

  /** A name the chain does not answer to is never applied. */
  lemma SkippedNeverApplied(attr: string, names: seq<string>, methods: set<string>, rule: string)
    requires rule !in methods
    ensures forall r :: r in AppliedRules(attr, names, methods) ==> r.rule != rule
  {
    AppliedRuleMessages(attr, names, methods);
  }

  /**
   * Every message the chain attaches names the field it checks, and holds
   * the placeholder only if the field name does.
   */
  lemma AttachedMessagesNameField(attr: string, names: seq<string>, methods: set<string>)
    ensures forall r :: r in AppliedRules(attr, names, methods) && r.message.Some? ==>
              Contains(r.message.value, attr)
              && (Contains(r.message.value, Attribute) ==> Contains(attr, Attribute))
  {
    AppliedRuleMessages(attr, names, methods);
    forall r | r in AppliedRules(attr, names, methods) && r.message.Some?
      ensures Contains(r.message.value, attr)
      ensures Contains(r.message.value, Attribute) ==> Contains(attr, Attribute)
    {
      var p, q := TemplatedMessage(r.rule, attr);
    }
  }
}
