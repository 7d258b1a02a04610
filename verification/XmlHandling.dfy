/** The content handler: parse events build an object by the rules. */
module XmlHandling {
  import opened Wrappers
  import opened Strings
  import opened XmlText
  import opened XmlRules

  /** An attribute with its resolved namespace. */
  datatype Attribute = Attribute(local: string, ns: Option<string>, value: string)

  /** An element under construction. Elements no rule matches have no rules and no object; `slot` is the rule of
      the parent that matched. */
  datatype Frame = Frame(element: Option<Obj>, characters: string, rules: Option<nat>, slot: Option<nat>)

  const NO_RULES := RuleSet([], [], false)

  function RulesOf(schema: Schema, f: Frame): RuleSet
  {
    if f.rules.Some? && f.rules.value < |schema| then schema[f.rules.value] else NO_RULES
  }

  /** The object fits the rules of its frame. */
  predicate FrameOk(schema: Schema, f: Frame)
  {
    match f.element
    case None => f.rules.None?
    case Some(o) =>
      && f.rules.Some? && f.rules.value < |schema|
      && |o.attributes| == |RulesOf(schema, f).attributes| && |o.fields| == |RulesOf(schema, f).elements|
  }

  /** Every frame but the first sits in a slot of the one below, if it has an object. */
  ghost predicate StackOk(schema: Schema, stack: seq<Frame>)
  {
    && (forall f :: f in stack ==> FrameOk(schema, f))
    && (forall i :: 0 < i < |stack| && stack[i].slot.Some? ==>
          stack[i].element.Some? && stack[i - 1].element.Some? && stack[i].slot.value < |stack[i - 1].element.value.fields|)
  }

  function FindElement(rules: seq<ElementRule>, key: string): Option<nat>
  {
    if rules == [] then None
    else if RuleKey(rules[0].local, rules[0].ns) == key then Some(0)
    else match FindElement(rules[1..], key) case None => None case Some(i) => Some(i + 1)
  }

  function FindAttribute(rules: seq<AttributeRule>, key: string): Option<nat>
  {
    if rules == [] then None
    else if RuleKey(rules[0].local, rules[0].ns) == key then Some(0)
    else match FindAttribute(rules[1..], key) case None => None case Some(i) => Some(i + 1)
  }

  lemma {:induction false} FoundElement(rules: seq<ElementRule>, key: string)
    ensures var i := FindElement(rules, key);
            && (i.Some? ==> i.value < |rules| && RuleKey(rules[i.value].local, rules[i.value].ns) == key)
            && (i.None? ==> forall j :: 0 <= j < |rules| ==> RuleKey(rules[j].local, rules[j].ns) != key)
  {
    if rules != [] && RuleKey(rules[0].local, rules[0].ns) != key {
      FoundElement(rules[1..], key);
      assert forall j :: 1 <= j < |rules| ==> rules[j] == rules[1..][j - 1];
    }
  }

  lemma {:induction false} FoundAttribute(rules: seq<AttributeRule>, key: string)
    ensures var i := FindAttribute(rules, key);
            && (i.Some? ==> i.value < |rules| && RuleKey(rules[i.value].local, rules[i.value].ns) == key)
            && (i.None? ==> forall j :: 0 <= j < |rules| ==> RuleKey(rules[j].local, rules[j].ns) != key)
  {
    if rules != [] && RuleKey(rules[0].local, rules[0].ns) != key {
      FoundAttribute(rules[1..], key);
      assert forall j :: 1 <= j < |rules| ==> rules[j] == rules[1..][j - 1];
    }
  }

  /** An object without properties. */
  function Blank(r: RuleSet): (o: Obj)
    ensures |o.attributes| == |r.attributes| && |o.fields| == |r.elements|
  {
    Obj(seq(|r.attributes|, _ => None), "", seq(|r.elements|, _ => Field([])))
  }

  /** Sets the property of the rule an attribute matches, if any. */
  function Assign(rules: seq<AttributeRule>, values: seq<Option<string>>, a: Attribute): (r: seq<Option<string>>)
    ensures |r| == |values|
  {
    match FindAttribute(rules, RuleKey(a.local, a.ns))
    case None => values
    case Some(i) => if i < |values| then values[i := Some(a.value)] else values
  }

  function AssignAll(rules: seq<AttributeRule>, values: seq<Option<string>>, attrs: seq<Attribute>): (r: seq<Option<string>>)
    ensures |r| == |values|
    decreases |attrs|
  {
    if attrs == [] then values else AssignAll(rules, Assign(rules, values, attrs[0]), attrs[1..])
  }

  /** A required attribute without a default is missing. */
  predicate Missing(rules: seq<AttributeRule>, values: seq<Option<string>>)
    requires |rules| == |values|
  {
    exists i :: 0 <= i < |rules| && values[i].None? && rules[i].default.None? && rules[i].required
  }

  function Opened(schema: Schema, validate: bool, stack: seq<Frame>, local: string, ns: Option<string>,
                        attrs: seq<Attribute>): Option<seq<Frame>>
    requires stack != [] && FrameOk(schema, stack[|stack| - 1])
  {
    var parent := stack[|stack| - 1];
    match FindElement(RulesOf(schema, parent).elements, RuleKey(local, ns))
    case None => Some(stack + [Frame(None, "", None, None)])
    case Some(k) =>
      FoundElement(RulesOf(schema, parent).elements, RuleKey(local, ns));
      var rule := RulesOf(schema, parent).elements[k];
      if !rule.many && parent.element.value.fields[k].items != [] then None
      else if rule.rules >= |schema| then None
      else
        var rules := schema[rule.rules];
        var values := AssignAll(rules.attributes, Blank(rules).attributes, attrs);
        if validate && Missing(rules.attributes, values) then None
        else Some(stack + [Frame(Some(Blank(rules).(attributes := Defaults(rules.attributes, values))), "",
                                 Some(rule.rules), Some(k))])
  }

  function WithLast(stack: seq<Frame>, f: Frame): seq<Frame>
    requires stack != []
  {
    stack[..|stack| - 1] + [f]
  }

  function Texted(schema: Schema, stack: seq<Frame>, s: string): seq<Frame>
    requires stack != []
  {
    var f := stack[|stack| - 1];
    if RulesOf(schema, f).characters then WithLast(stack, f.(characters := f.characters + DecodeEntities(Trim(s)))) else stack
  }

  function Sectioned(schema: Schema, stack: seq<Frame>, s: string): seq<Frame>
    requires stack != []
  {
    var f := stack[|stack| - 1];
    if RulesOf(schema, f).characters then WithLast(stack, f.(characters := f.characters + s)) else stack
  }

  predicate InRange(rule: ElementRule, n: nat)
  {
    rule.min <= n && (rule.max.Some? ==> n <= rule.max.value)
  }

  predicate Cardinal(rules: seq<ElementRule>, fs: seq<Field>)
    requires |rules| == |fs|
  {
    forall i :: 0 <= i < |rules| ==> InRange(rules[i], |fs[i].items|)
  }

  predicate Validates(schema: Schema, validate: bool, f: Frame)
    requires FrameOk(schema, f)
  {
    validate && f.element.Some? ==> Cardinal(RulesOf(schema, f).elements, f.element.value.fields)
  }

  /** The object of a frame once its element ends. */
  function Ended(schema: Schema, f: Frame): Option<Obj>
  {
    if f.element.Some? && RulesOf(schema, f).characters then Some(f.element.value.(text := f.characters)) else f.element
  }

  function Attach(parent: Frame, slot: nat, o: Obj): Frame
    requires parent.element.Some? && slot < |parent.element.value.fields|
  {
    var p := parent.element.value;
    parent.(element := Some(p.(fields := p.fields[slot := Field(p.fields[slot].items + [o])])))
  }

  function Closed(schema: Schema, validate: bool, stack: seq<Frame>): Option<seq<Frame>>
    requires |stack| >= 2 && StackOk(schema, stack)
  {
    var f, below := stack[|stack| - 1], stack[..|stack| - 1];
    if !Validates(schema, validate, f) then None
    else if f.slot.None? then Some(below)
    else Some(WithLast(below, Attach(below[|below| - 1], f.slot.value, Ended(schema, f).value)))
  }

  /** The object of the innermost open element. */
  function Finished(schema: Schema, validate: bool, stack: seq<Frame>): Option<Option<Obj>>
    requires stack != [] && StackOk(schema, stack)
  {
    var f := stack[|stack| - 1];
    if Validates(schema, validate, f) then Some(f.element) else None
  }

  function RootFrame(schema: Schema, root: nat): Frame
    requires root < |schema|
  {
    Frame(Some(Blank(schema[root])), "", Some(root), None)
  }

  // ------------------------------------------------------------------ what every event keeps

  lemma LastOk(schema: Schema, stack: seq<Frame>)
    requires stack != [] && StackOk(schema, stack)
    ensures FrameOk(schema, stack[|stack| - 1])
  {
  }

  lemma StartKeeps(schema: Schema, validate: bool, stack: seq<Frame>, local: string, ns: Option<string>, attrs: seq<Attribute>)
    requires stack != [] && StackOk(schema, stack)
    ensures var r := Opened(schema, validate, stack, local, ns, attrs);
            r.Some? ==> StackOk(schema, r.value) && |r.value| == |stack| + 1
  {
    hide AssignAll, Defaults, Missing;
    var parent := stack[|stack| - 1];
    FoundElement(RulesOf(schema, parent).elements, RuleKey(local, ns));
    DefaultsLength(schema, attrs);
    var r := Opened(schema, validate, stack, local, ns, attrs);
    if r.Some? {
      var s := r.value;
      assert s[..|stack|] == stack;
      forall i | 0 < i < |s| && s[i].slot.Some?
        ensures s[i].element.Some? && s[i - 1].element.Some? && s[i].slot.value < |s[i - 1].element.value.fields|
      {
        if i < |stack| { assert s[i] == stack[i] && s[i - 1] == stack[i - 1]; }
      }
    }
  }

  lemma DefaultsLength(schema: Schema, attrs: seq<Attribute>)
    ensures forall r :: r in schema ==>
              |Defaults(r.attributes, AssignAll(r.attributes, Blank(r).attributes, attrs))| == |r.attributes|
  {
    hide AssignAll;
    forall r | r in schema ensures |Defaults(r.attributes, AssignAll(r.attributes, Blank(r).attributes, attrs))| == |r.attributes|
    {
      DefaultsSame(r.attributes, AssignAll(r.attributes, Blank(r).attributes, attrs));
    }
  }

  lemma DefaultsSame(rules: seq<AttributeRule>, values: seq<Option<string>>)
    requires |rules| == |values|
    ensures |Defaults(rules, values)| == |rules|
  {
  }

  lemma CharactersKeep(schema: Schema, stack: seq<Frame>, text: string)
    requires stack != [] && StackOk(schema, stack)
    ensures var s := WithLast(stack, stack[|stack| - 1].(characters := text)); StackOk(schema, s) && |s| == |stack|
  {
    var f := stack[|stack| - 1].(characters := text);
    var s := WithLast(stack, f);
    assert forall i :: 0 <= i < |stack| - 1 ==> s[i] == stack[i];
    assert s[|stack| - 1] == f;
    assert FrameOk(schema, stack[|stack| - 1]);
    forall i | 0 < i < |s| && s[i].slot.Some?
      ensures s[i].element.Some? && s[i - 1].element.Some? && s[i].slot.value < |s[i - 1].element.value.fields|
    {
      assert stack[i].slot.Some?;
    }
  }

  lemma EndKeeps(schema: Schema, validate: bool, stack: seq<Frame>)
    requires |stack| >= 2 && StackOk(schema, stack)
    ensures var r := Closed(schema, validate, stack);
            r.Some? ==> StackOk(schema, r.value) && |r.value| == |stack| - 1
  {
    var f, below := stack[|stack| - 1], stack[..|stack| - 1];
    assert forall i :: 0 <= i < |below| ==> below[i] == stack[i];
    assert StackOk(schema, below);
    if f.slot.Some? {
      var parent := Attach(below[|below| - 1], f.slot.value, Ended(schema, f).value);
      var s := WithLast(below, parent);
      assert FrameOk(schema, below[|below| - 1]);
      assert forall i :: 0 <= i < |below| - 1 ==> s[i] == below[i];
      forall i | 0 < i < |s| && s[i].slot.Some?
        ensures s[i].element.Some? && s[i - 1].element.Some? && s[i].slot.value < |s[i - 1].element.value.fields|
      {
        assert below[i].slot.Some?;
      }
    }
  }

  // ------------------------------------------------------------------ the handler object

  class ParseXmlHandlerImpl {
    const schema: Schema
    const root: nat
    const validateRules: bool
    var stack: seq<Frame>
    var busy: bool

    ghost predicate Valid()
      reads this
    {
      root < |schema| && StackOk(schema, stack)
    }

    constructor (schema: Schema, root: nat, validateRules: bool)
      requires root < |schema|
      ensures Valid() && !busy && stack == []
      ensures this.schema == schema && this.root == root && this.validateRules == validateRules
    {
      this.schema := schema;
      this.root := root;
      this.validateRules := validateRules;
      stack := [];
      busy := false;
    }

    /** Fails while a document is being parsed. */
    method StartDocument() returns (ok: bool)
      requires Valid()
      modifies this
      ensures Valid() && busy && ok == !old(busy)
      ensures stack == if ok then old(stack) + [RootFrame(schema, root)] else old(stack)
    {
      if busy { return false; }
      busy := true;
      stack := stack + [RootFrame(schema, root)];
      return true;
    }

    method StartElement(local: string, ns: Option<string>, attrs: seq<Attribute>) returns (ok: bool)
      requires Valid() && stack != []
      modifies this`stack
      ensures Valid()
      ensures var r := Opened(schema, validateRules, old(stack), local, ns, attrs);
              ok == r.Some? && stack == if ok then r.value else old(stack)
    {
      hide AssignAll, Defaults;
      StartKeeps(schema, validateRules, stack, local, ns, attrs);
      var parent := stack[|stack| - 1];
      assert parent in stack && FrameOk(schema, parent);
      var k := FindElement(RulesOf(schema, parent).elements, RuleKey(local, ns));
      FoundElement(RulesOf(schema, parent).elements, RuleKey(local, ns));
      var frame := Frame(None, "", None, None);
      if k.Some? {
        var rule := RulesOf(schema, parent).elements[k.value];
        if !rule.many && parent.element.value.fields[k.value].items != [] { return false; }
        if rule.rules >= |schema| { return false; }
        var rules := schema[rule.rules];
        var values := SetAttributes(rules.attributes, attrs);
        var missing := MissingOne(rules.attributes, values);
        if validateRules && missing { return false; }
        frame := Frame(Some(Blank(rules).(attributes := Defaults(rules.attributes, values))), "", Some(rule.rules), k);
      }
      stack := stack + [frame];
      return true;
    }

    method SetAttributes(rules: seq<AttributeRule>, attrs: seq<Attribute>) returns (values: seq<Option<string>>)
      ensures values == AssignAll(rules, seq(|rules|, _ => None), attrs)
    {
      values := seq(|rules|, _ => None);
      for i := 0 to |attrs|
        invariant |values| == |rules|
        invariant AssignAll(rules, values, attrs[i..]) == AssignAll(rules, seq(|rules|, _ => None), attrs)
      {
        hide Assign;
        assert attrs[i..][1..] == attrs[i + 1..];
        values := Assign(rules, values, attrs[i]);
      }
    }

    method MissingOne(rules: seq<AttributeRule>, values: seq<Option<string>>) returns (missing: bool)
      requires |rules| == |values|
      ensures missing == Missing(rules, values)
    {
      for i := 0 to |rules|
        invariant forall j :: 0 <= j < i ==> !(values[j].None? && rules[j].default.None? && rules[j].required)
      {
        if values[i].None? && rules[i].default.None? && rules[i].required { return true; }
      }
      return false;
    }

    method TextNode(s: string)
      requires Valid() && stack != []
      modifies this`stack
      ensures Valid() && stack == Texted(schema, old(stack), s)
    {
      hide DecodeEntities, Trim, StackOk;
      var current := stack[|stack| - 1];
      if !RulesOf(schema, current).characters { return; }
      CharactersKeep(schema, stack, current.characters + DecodeEntities(Trim(s)));
      stack := WithLast(stack, current.(characters := current.characters + DecodeEntities(Trim(s))));
    }

    method CDataNode(s: string)
      requires Valid() && stack != []
      modifies this`stack
      ensures Valid() && stack == Sectioned(schema, old(stack), s)
    {
      hide StackOk;
      var current := stack[|stack| - 1];
      if !RulesOf(schema, current).characters { return; }
      CharactersKeep(schema, stack, current.characters + s);
      stack := WithLast(stack, current.(characters := current.characters + s));
    }

    method EndElement() returns (ok: bool)
      requires Valid() && |stack| >= 2
      modifies this`stack
      ensures Valid()
      ensures var r := Closed(schema, validateRules, old(stack));
              ok == r.Some? && stack == if ok then r.value else old(stack)
    {
      hide Cardinal, Attach;
      EndKeeps(schema, validateRules, stack);
      var lastEl := stack[|stack| - 1];
      ok := Validate(lastEl);
      if !ok { return; }
      stack := stack[..|stack| - 1];
      if lastEl.slot.Some? {
        var element := lastEl.element.value;
        if RulesOf(schema, lastEl).characters { element := element.(text := lastEl.characters); }
        stack := WithLast(stack, Attach(stack[|stack| - 1], lastEl.slot.value, element));
      }
    }

    method EndDocument() returns (r: Option<Option<Obj>>)
      requires Valid() && stack != []
      modifies this
      ensures !busy && stack == old(stack)[..|old(stack)| - 1]
      ensures r == Finished(schema, validateRules, old(stack))
    {
      busy := false;
      var last := stack[|stack| - 1];
      stack := stack[..|stack| - 1];
      var ok := Validate(last);
      return if ok then Some(last.element) else None;
    }

    method Validate(current: Frame) returns (ok: bool)
      requires FrameOk(schema, current)
      ensures ok == Validates(schema, validateRules, current)
    {
      if !validateRules || current.element.None? { return true; }
      var rules, fields := RulesOf(schema, current).elements, current.element.value.fields;
      for i := 0 to |rules|
        invariant forall j :: 0 <= j < i ==> InRange(rules[j], |fields[j].items|)
      {
        var length := |fields[i].items|;
        if length < rules[i].min { return false; }
        if rules[i].max.Some? && length > rules[i].max.value { return false; }
      }
      return true;
    }
  }
}
