/**
 * `NotificationService`: renders an action's message template against the
 * Kafka message and posts it to a Slack webhook. A post is an entry
 * appended to the log `sent`.
 *
 * The message becomes a tree (a text node when it is not JSON); the tree
 * becomes a map of variables: a scalar gives `value`, an object gives one
 * entry per leaf under its dotted path, an array gives nothing. Each
 * `${name}` of the template naming a variable is replaced by its value.
 */
module Notification {
  import opened Text
  import opened Json
  import opened Model
  import RuleEngine

  /** A Slack post: where it went and the text it carried. */
  datatype SlackMessage = SlackMessage(webhookUrl: string, text: string)

  // ---------------------------------------------------------------- the variable map

  /** `getMessageNode`: the parsed tree, or a text node holding the message when it is not JSON. */
  function MessageNode(message: string, readTree: JsonReader): (r: Json)
    ensures readTree(message).None? ==> r == Str(message)
  {
    match readTree(message)
    case Some(node) => node
    case None => Str(message)
  }

  /** The key of a member under `prefix`: its own name at the top, "prefix.name" below. */
  function Dotted(prefix: string, name: string): string
  {
    if prefix == [] then name else prefix + "." + name
  }

  /** `flattenJsonToMap` over the members in order: leaves are put as text, objects are entered. */
  function FlattenInto(fs: Fields, prefix: string, acc: map<string, string>): map<string, string>
    decreases fs, 0
  {
    if fs == [] then acc else FlattenInto(fs[1..], prefix, FlattenMember(fs[0], prefix, acc))
  }

  function FlattenMember(f: (string, Json), prefix: string, acc: map<string, string>): map<string, string>
    decreases f, 0
  {
    var key := Dotted(prefix, f.0);
    if f.1.Obj? then FlattenInto(f.1.fields, key, acc) else acc[key := AsText(f.1)]
  }

  /** `createVariableMap`. */
  function VariableMap(node: Json): map<string, string>
  {
    if node.Obj? then FlattenInto(node.fields, "", map[])
    else if node.Arr? then map[]
    else map["value" := AsText(node)]
  }

  // ---------------------------------------------------------------- substitution

  /**
   * `StringSubstitutor.replace` with the default `${` and `}` markers, one
   * pass: a known name is replaced, an unknown placeholder is kept as
   * written, and a `${` without a closing `}` leaves the rest as it is.
   */
  function Substitute(template: string, vars: map<string, string>): string
    decreases |template|
  {
    if template == [] then []
    else if |template| >= 2 && template[0] == '$' && template[1] == '{' then
      match IndexOf(template[2..], '}')
      case None => template
      case Some(j) =>
        var name := template[2..2 + j];
        (if name in vars then vars[name] else template[..3 + j]) + Substitute(template[3 + j..], vars)
    else [template[0]] + Substitute(template[1..], vars)
  }

  /** A `${` starts at position `i` of `template`. */
  predicate OpensAt(template: string, i: int)
    requires 0 <= i < |template| - 1
  {
    template[i] == '$' && template[i + 1] == '{'
  }

  /** `template` has no `${` in it. */
  predicate NoPlaceholder(template: string)
  {
    forall i :: 0 <= i < |template| - 1 ==> !OpensAt(template, i)
  }

  /** `replaceVariables`. */
  function Render(template: string, node: Json): string
  {
    Substitute(template, VariableMap(node))
  }

  // ---------------------------------------------------------------- what is sent

  /**
   * The posts one call of `executeNotificationAction` makes: one when the
   * provider is exactly "SLACK" and `webhookURL` and `message` are both
   * texts, none otherwise (a missing provider throws and is caught).
   */
  function Outgoing(action: NotificationAction, message: string, readTree: JsonReader): (r: seq<SlackMessage>)
    ensures |r| <= 1
    ensures r != [] <==>
      RuleEngine.StringMember(action.params, "provider") == Ok(Some("SLACK"))
      && RuleEngine.StringMember(action.params, "webhookURL").Ok?
      && RuleEngine.StringMember(action.params, "webhookURL").value.Some?
      && RuleEngine.StringMember(action.params, "message").Ok?
      && RuleEngine.StringMember(action.params, "message").value.Some?
    ensures r != [] ==>
      r[0] == SlackMessage(RuleEngine.StringMember(action.params, "webhookURL").value.value,
                           Render(RuleEngine.StringMember(action.params, "message").value.value, MessageNode(message, readTree)))
  {
    if RuleEngine.StringMember(action.params, "provider") == Ok(Some("SLACK")) then
      match (RuleEngine.StringMember(action.params, "webhookURL"), RuleEngine.StringMember(action.params, "message"))
      case (Ok(Some(url)), Ok(Some(template))) => [SlackMessage(url, Render(template, MessageNode(message, readTree)))]
      case _ => []
    else []
  }

  // ---------------------------------------------------------------- properties

  /** A scalar message gives exactly the variable `value`, holding its text. */
  lemma ScalarMessageVariables(node: Json)
    requires !node.Obj? && !node.Arr?
    ensures VariableMap(node).Keys == {"value"} && VariableMap(node)["value"] == AsText(node)
  {
  }

  /** A message that is not JSON is offered whole as `value`. */
  lemma TextMessageVariables(message: string, readTree: JsonReader)
    requires readTree(message).None?
    ensures VariableMap(MessageNode(message, readTree)) == map["value" := message]
  {
  }

  /** A template without placeholders is sent as written. */
  lemma {:induction false} NoPlaceholderUnchanged(template: string, vars: map<string, string>)
    requires NoPlaceholder(template)
    ensures Substitute(template, vars) == template
    decreases |template|
  {
    if template != [] {
      if |template| >= 2 {
        assert !OpensAt(template, 0);
      }
      NoPlaceholderTail(template);
      NoPlaceholderUnchanged(template[1..], vars);
    }
  }

  /** With no variables at all, every placeholder stays verbatim. */
  lemma {:induction false} EmptyMapUnchanged(template: string)
    ensures Substitute(template, map[]) == template
    decreases |template|
  {
    if template != [] {
      if |template| >= 2 && template[0] == '$' && template[1] == '{' {
        match IndexOf(template[2..], '}')
        case None =>
        case Some(j) =>
          EmptyMapUnchanged(template[3 + j..]);
          assert template[..3 + j] + template[3 + j..] == template;
      } else {
        EmptyMapUnchanged(template[1..]);
        assert [template[0]] + template[1..] == template;
      }
    }
  }

  /** A top-level array message gives no variables, so every template is sent as written. */
  lemma ArrayMessageUnchanged(items: seq<Json>, template: string)
    ensures VariableMap(Arr(items)) == map[]
    ensures Render(template, Arr(items)) == template
  {
    EmptyMapUnchanged(template);
  }

  /** `${name}` with `name` in the map is replaced by its value, and substitution goes on after it. */
  lemma KnownPlaceholder(name: string, rest: string, vars: map<string, string>)
    requires '}' !in name && name in vars
    ensures Substitute("${" + name + "}" + rest, vars) == vars[name] + Substitute(rest, vars)
  {
    var t := "${" + name + "}" + rest;
    assert t[2..] == name + "}" + rest;
    ClosingBrace(name, rest);
    assert t[2..2 + |name|] == name;
    assert t[3 + |name|..] == rest;
  }

  /** `${name}` with `name` not in the map is kept as written, and substitution goes on after it. */
  lemma UnknownPlaceholder(name: string, rest: string, vars: map<string, string>)
    requires '}' !in name && name !in vars
    ensures Substitute("${" + name + "}" + rest, vars) == "${" + name + "}" + Substitute(rest, vars)
  {
    var t := "${" + name + "}" + rest;
    assert t[0] == '$' && t[1] == '{';
    assert t[2..] == name + "}" + rest;
    ClosingBrace(name, rest);
    assert t[2..2 + |name|] == name;
    assert t[..3 + |name|] == "${" + name + "}";
    assert t[3 + |name|..] == rest;
    assert Substitute(t, vars) == t[..3 + |name|] + Substitute(t[3 + |name|..], vars);
  }

  /** A character that does not open a placeholder is copied, and substitution goes on after it. */
  lemma PlainStep(c: char, s: string, vars: map<string, string>)
    requires !(c == '$' && s != [] && s[0] == '{')
    ensures Substitute([c] + s, vars) == [c] + Substitute(s, vars)
  {
    assert ([c] + s)[1..] == s;
  }

  /** Dropping the first character of a text without `${` leaves a text without `${`. */
  lemma NoPlaceholderTail(plain: string)
    requires plain != [] && NoPlaceholder(plain)
    ensures NoPlaceholder(plain[1..])
  {
    forall i | 0 <= i < |plain[1..]| - 1
      ensures !OpensAt(plain[1..], i)
    {
      assert !OpensAt(plain, i + 1);
      assert plain[1..][i] == plain[i + 1] && plain[1..][i + 1] == plain[i + 2];
    }
  }

  /** Text before the first `${` passes through unchanged. */
  lemma {:induction false} PlainPrefix(plain: string, rest: string, vars: map<string, string>)
    requires NoPlaceholder(plain) && (plain != [] ==> plain[|plain| - 1] != '$')
    ensures Substitute(plain + rest, vars) == plain + Substitute(rest, vars)
    decreases |plain|
  {
    if plain != [] {
      var c, tail := plain[0], plain[1..];
      calc {
        Substitute(plain + rest, vars);
        == { assert plain + rest == [c] + (tail + rest); }
        Substitute([c] + (tail + rest), vars);
        == { if |plain| >= 2 { assert !OpensAt(plain, 0); }
             PlainStep(c, tail + rest, vars); }
        [c] + Substitute(tail + rest, vars);
        == { NoPlaceholderTail(plain);
             PlainPrefix(tail, rest, vars); }
        [c] + (tail + Substitute(rest, vars));
        == { assert plain == [c] + tail; }
        plain + Substitute(rest, vars);
      }
    } else {
      assert plain + rest == rest;
    }
  }

  /**
   * A template with one placeholder: the text around it is kept, the
   * placeholder becomes the variable's value, or stays as written when the
   * message has no such variable.
   */
  lemma OnePlaceholder(before: string, name: string, after: string, vars: map<string, string>)
    requires NoPlaceholder(before) && (before != [] ==> before[|before| - 1] != '$')
    requires '}' !in name && NoPlaceholder(after)
    ensures Substitute(before + "${" + name + "}" + after, vars)
         == before + (if name in vars then vars[name] else "${" + name + "}") + after
  {
    assert before + "${" + name + "}" + after == before + ("${" + name + "}" + after);
    PlainPrefix(before, "${" + name + "}" + after, vars);
    NoPlaceholderUnchanged(after, vars);
    if name in vars {
      KnownPlaceholder(name, after, vars);
    } else {
      UnknownPlaceholder(name, after, vars);
    }
  }

  lemma ClosingBrace(name: string, rest: string)
    requires '}' !in name
    ensures IndexOf(name + "}" + rest, '}') == Some(|name|)
  {
    var s := name + "}" + rest;
    var r := IndexOf(s, '}');
    assert s[|name|] == '}';
    assert forall i :: 0 <= i < |name| ==> s[i] == name[i];
    assert r.Some?;
  }

  /** The text of a `Dotted` key under a non-empty prefix starts with that prefix and a dot. */
  predicate Below(key: string, prefix: string)
  {
    |key| >= |prefix| + 1 && key[..|prefix| + 1] == prefix + "."
  }

  /**
   * Under a non-empty prefix, flattening adds only keys below that prefix:
   * an object reached under a key contributes no entry of its own.
   */
  lemma {:induction false} FlattenAddsBelow(fs: Fields, prefix: string, acc: map<string, string>)
    requires prefix != []
    ensures forall k :: k in FlattenInto(fs, prefix, acc) && k !in acc ==> Below(k, prefix)
    decreases fs, 0
  {
    if fs != [] {
      FlattenMemberAddsBelow(fs[0], prefix, acc);
      FlattenAddsBelow(fs[1..], prefix, FlattenMember(fs[0], prefix, acc));
    }
  }

  lemma {:induction false} FlattenMemberAddsBelow(f: (string, Json), prefix: string, acc: map<string, string>)
    requires prefix != []
    ensures forall k :: k in FlattenMember(f, prefix, acc) && k !in acc ==> Below(k, prefix)
    decreases f, 0
  {
    var key := Dotted(prefix, f.0);
    assert key == prefix + "." + f.0;
    assert key[..|prefix| + 1] == prefix + ".";
    if f.1.Obj? {
      FlattenAddsBelow(f.1.fields, key, acc);
      forall k | k in FlattenMember(f, prefix, acc) && k !in acc
        ensures Below(k, prefix)
      {
        assert Below(k, key);
        assert k[..|prefix| + 1] == k[..|key| + 1][..|prefix| + 1];
        assert (key + ".")[..|prefix| + 1] == key[..|prefix| + 1];
      }
    }
  }

  /** An object nested under a (non-empty) name gives no variable of that name; its leaves appear as "name.leaf". */
  lemma NestedObjectHasNoOwnKey(name: string, inner: Fields)
    requires name != []
    ensures var vars := VariableMap(Obj([(name, Obj(inner))]));
            name !in vars && forall k :: k in vars ==> Below(k, name)
  {
    var fs := [(name, Obj(inner))];
    FlattenAddsBelow(inner, name, map[]);
    assert fs[1..] == [];
    assert Dotted("", name) == name;
    assert FlattenMember(fs[0], "", map[]) == FlattenInto(inner, name, map[]);
    assert FlattenInto(fs, "", map[]) == FlattenInto([], "", FlattenMember(fs[0], "", map[]));
    assert VariableMap(Obj(fs)) == FlattenInto(inner, name, map[]);
  }

  /** Distinct member names under the same prefix give distinct keys. */
  lemma DottedDistinct(prefix: string, x: string, y: string)
    requires x != y
    ensures Dotted(prefix, x) != Dotted(prefix, y)
  {
    if prefix != [] {
      assert x == Dotted(prefix, x)[|prefix| + 1..];
      assert y == Dotted(prefix, y)[|prefix| + 1..];
    }
  }

  /**
   * The members of a flat object (no member is an object) with distinct
   * names, flattened under `prefix`, give exactly one variable per member,
   * keyed by its dotted name and holding that member's text.
   */
  lemma {:induction false} FlatObjectVariables(fs: Fields, prefix: string, acc: map<string, string>)
    requires forall i :: 0 <= i < |fs| ==> !fs[i].1.Obj?
    requires forall i, j :: 0 <= i < j < |fs| ==> fs[i].0 != fs[j].0
    ensures var r := FlattenInto(fs, prefix, acc);
            (forall i :: 0 <= i < |fs| ==> Dotted(prefix, fs[i].0) in r && r[Dotted(prefix, fs[i].0)] == AsText(fs[i].1))
            && (forall k :: k in r ==> k in acc || exists i :: 0 <= i < |fs| && Dotted(prefix, fs[i].0) == k)
            && (forall k :: k in acc && (forall i :: 0 <= i < |fs| ==> Dotted(prefix, fs[i].0) != k) ==> k in r && r[k] == acc[k])
    decreases |fs|
  {
    if fs != [] {
      var first := Dotted(prefix, fs[0].0);
      var next := FlattenMember(fs[0], prefix, acc);
      assert next == acc[first := AsText(fs[0].1)];
      var tail := fs[1..];
      assert forall i :: 0 <= i < |tail| ==> tail[i] == fs[i + 1];
      FlatObjectVariables(tail, prefix, next);
      var r := FlattenInto(fs, prefix, acc);
      assert r == FlattenInto(tail, prefix, next);
      forall i | 0 <= i < |fs|
        ensures Dotted(prefix, fs[i].0) in r && r[Dotted(prefix, fs[i].0)] == AsText(fs[i].1)
      {
        if i == 0 {
          forall j | 0 <= j < |tail|
            ensures Dotted(prefix, tail[j].0) != first
          {
            assert tail[j].0 == fs[j + 1].0 != fs[0].0;
            DottedDistinct(prefix, tail[j].0, fs[0].0);
          }
        } else {
          assert tail[i - 1] == fs[i];
        }
      }
      forall k | k in r
        ensures k in acc || exists i :: 0 <= i < |fs| && Dotted(prefix, fs[i].0) == k
      {
        if k !in next {
          var j :| 0 <= j < |tail| && Dotted(prefix, tail[j].0) == k;
          assert Dotted(prefix, fs[j + 1].0) == k;
        } else if k == first {
          assert Dotted(prefix, fs[0].0) == k;
        }
      }
      forall k | k in acc && (forall i :: 0 <= i < |fs| ==> Dotted(prefix, fs[i].0) != k)
        ensures k in r && r[k] == acc[k]
      {
        assert first != k;
        assert forall j :: 0 <= j < |tail| ==> Dotted(prefix, tail[j].0) != k;
      }
    }
  }

  /**
   * A flat object with distinct member names nested under a non-empty name
   * gives the variable "name.member" for each of its members, holding that
   * member's text, and no other variable.
   */
  lemma NestedObjectVariables(name: string, inner: Fields)
    requires name != []
    requires forall i :: 0 <= i < |inner| ==> !inner[i].1.Obj?
    requires forall i, j :: 0 <= i < j < |inner| ==> inner[i].0 != inner[j].0
    ensures var vars := VariableMap(Obj([(name, Obj(inner))]));
            (forall i :: 0 <= i < |inner| ==> name + "." + inner[i].0 in vars
                                              && vars[name + "." + inner[i].0] == AsText(inner[i].1))
            && (forall k :: k in vars ==> exists i :: 0 <= i < |inner| && k == name + "." + inner[i].0)
  {
    var fs := [(name, Obj(inner))];
    assert fs[1..] == [];
    assert Dotted("", name) == name;
    assert FlattenMember(fs[0], "", map[]) == FlattenInto(inner, name, map[]);
    assert FlattenInto(fs, "", map[]) == FlattenInto([], "", FlattenMember(fs[0], "", map[]));
    assert VariableMap(Obj(fs)) == FlattenInto(inner, name, map[]);
    FlatObjectVariables(inner, name, map[]);
    assert forall i :: 0 <= i < |inner| ==> Dotted(name, inner[i].0) == name + "." + inner[i].0;
  }

  // ---------------------------------------------------------------- flattening at every depth

  /** The key `flattenJsonToMap` gives the node reached along `path` when it starts from `prefix`. */
  function KeyOf(prefix: string, path: seq<string>): string
    decreases path
  {
    if path == [] then prefix else KeyOf(Dotted(prefix, path[0]), path[1..])
  }

  /** Following `path` from `node` member by member ends at a leaf: anything but an object. */
  predicate LeafPath(node: Json, path: seq<string>)
  {
    var r := RuleEngine.ResolvePath(node, path);
    r.Some? && !r.value.Obj?
  }

  /** `k` is the key of some leaf of `node` when its keys start from `prefix`. */
  ghost predicate LeafKey(node: Json, prefix: string, k: string)
  {
    exists path :: LeafPath(node, path) && KeyOf(prefix, path) == k
  }

  /** In every object of the tree, member names are non-empty, free of dots and distinct. */
  predicate PlainNames(node: Json)
    decreases node, 1
  {
    node.Obj? ==> PlainFields(node.fields)
  }

  predicate PlainFields(fs: Fields)
    decreases fs, 1
  {
    (forall i :: 0 <= i < |fs| ==> PlainMember(fs[i]))
    && (forall i, j :: 0 <= i < j < |fs| ==> fs[i].0 != fs[j].0)
  }

  predicate PlainMember(f: (string, Json))
    decreases f, 0
  {
    f.0 != [] && '.' !in f.0 && PlainNames(f.1)
  }

  lemma PlainFieldsTail(fs: Fields)
    requires fs != [] && PlainFields(fs)
    ensures PlainFields(fs[1..])
    ensures forall i :: 0 <= i < |fs[1..]| ==> fs[1..][i].0 != fs[0].0
  {
    assert forall i :: 0 <= i < |fs[1..]| ==> fs[1..][i] == fs[i + 1];
  }

  /** A key built from a non-empty start is that start, or that start followed by a dot and more. */
  lemma {:induction false} KeyExtends(start: string, path: seq<string>)
    requires start != []
    ensures var k := KeyOf(start, path);
            |k| >= |start| && k[..|start|] == start && (|k| > |start| ==> k[|start|] == '.')
    decreases path
  {
    if path != [] {
      var next := start + "." + path[0];
      assert Dotted(start, path[0]) == next;
      KeyExtends(next, path[1..]);
      var k := KeyOf(start, path);
      assert k[..|start|] == k[..|next|][..|start|];
      assert next[..|start|] == start && next[|start|] == '.';
    }
  }

  lemma KeyDistinctOrdered(lead: string, a: string, b: string, p: seq<string>, q: seq<string>)
    requires a != [] && '.' !in a && '.' !in b && a != b && |a| <= |b|
    ensures KeyOf(lead + a, p) != KeyOf(lead + b, q)
  {
    var ka, kb := KeyOf(lead + a, p), KeyOf(lead + b, q);
    KeyExtends(lead + a, p);
    KeyExtends(lead + b, q);
    var n := |lead| + |a|;
    assert kb[..n] == (lead + b)[..n] by {
      assert kb[..n] == kb[..|lead + b|][..n];
    }
    assert (lead + b)[..n] == lead + b[..|a|];
    assert (lead + a)[|lead|..] == a && (lead + b[..|a|])[|lead|..] == b[..|a|];
    if b[..|a|] != a {
      assert ka[..n] != kb[..n];
    } else {
      assert b[..|b|] == b;
      assert kb[n] == (lead + b)[n] == b[|a|];
      assert b[|a|] != '.';
      assert |ka| == n || ka[n] == '.';
    }
  }

  /** The leaves of two members with different plain names are stored under different keys. */
  lemma KeyDistinct(prefix: string, a: string, b: string, p: seq<string>, q: seq<string>)
    requires a != [] && b != [] && '.' !in a && '.' !in b && a != b
    ensures KeyOf(Dotted(prefix, a), p) != KeyOf(Dotted(prefix, b), q)
  {
    var lead := if prefix == [] then "" else prefix + ".";
    assert Dotted(prefix, a) == lead + a && Dotted(prefix, b) == lead + b;
    if |a| <= |b| {
      KeyDistinctOrdered(lead, a, b, p, q);
    } else {
      KeyDistinctOrdered(lead, b, a, q, p);
    }
  }

  /** A path into the first member of an object, seen from the object. */
  lemma LeafPathFirst(fs: Fields, prefix: string, q: seq<string>)
    requires fs != []
    ensures var path := [fs[0].0] + q;
            RuleEngine.ResolvePath(Obj(fs), path) == RuleEngine.ResolvePath(fs[0].1, q)
            && KeyOf(prefix, path) == KeyOf(Dotted(prefix, fs[0].0), q)
  {
    var path := [fs[0].0] + q;
    assert path[0] == fs[0].0 && path[1..] == q;
  }

  /** A path of an object is either a path into its first member or one of the others' paths. */
  lemma LeafPathSplit(fs: Fields, path: seq<string>)
    requires fs != [] && PlainFields(fs) && LeafPath(Obj(fs), path)
    ensures path != []
    ensures path[0] == fs[0].0 ==>
              RuleEngine.ResolvePath(Obj(fs), path) == RuleEngine.ResolvePath(fs[0].1, path[1..])
    ensures path[0] != fs[0].0 ==>
              RuleEngine.ResolvePath(Obj(fs), path) == RuleEngine.ResolvePath(Obj(fs[1..]), path)
  {
    assert path != [];
  }

  /** A path of the other members is a path of the object, and does not enter the first member. */
  lemma LeafPathTail(fs: Fields, path: seq<string>)
    requires fs != [] && PlainFields(fs) && LeafPath(Obj(fs[1..]), path)
    ensures path != [] && path[0] != fs[0].0
    ensures RuleEngine.ResolvePath(Obj(fs), path) == RuleEngine.ResolvePath(Obj(fs[1..]), path)
  {
    PlainFieldsTail(fs);
    assert path != [];
    var found := Lookup(fs[1..], path[0]);
    assert found.Some?;
    var i :| 0 <= i < |fs[1..]| && fs[1..][i] == (path[0], found.value);
  }

  /** The first member's leaf keys are not keys of the later members' leaves. */
  lemma FirstKeysApart(fs: Fields, prefix: string, k: string)
    requires fs != [] && PlainFields(fs)
    requires LeafKey(fs[0].1, Dotted(prefix, fs[0].0), k)
    ensures !LeafKey(Obj(fs[1..]), prefix, k)
  {
    var q :| LeafPath(fs[0].1, q) && KeyOf(Dotted(prefix, fs[0].0), q) == k;
    PlainFieldsTail(fs);
    assert PlainMember(fs[0]);
    forall p | LeafPath(Obj(fs[1..]), p)
      ensures KeyOf(prefix, p) != k
    {
      LeafPathTail(fs, p);
      var i :| 0 <= i < |fs[1..]| && fs[1..][i] == (p[0], Lookup(fs[1..], p[0]).value);
      assert PlainMember(fs[1..][i]);
      KeyDistinct(prefix, p[0], fs[0].0, p[1..], q);
    }
  }

  /** A leaf key of the first member is a leaf key of the object. */
  lemma FirstKeyLifts(fs: Fields, prefix: string, k: string)
    requires fs != []
    ensures LeafKey(fs[0].1, Dotted(prefix, fs[0].0), k) ==> LeafKey(Obj(fs), prefix, k)
  {
    if LeafKey(fs[0].1, Dotted(prefix, fs[0].0), k) {
      var q :| LeafPath(fs[0].1, q) && KeyOf(Dotted(prefix, fs[0].0), q) == k;
      LeafPathFirst(fs, prefix, q);
      assert LeafPath(Obj(fs), [fs[0].0] + q);
    }
  }

  /** A leaf key of the later members is a leaf key of the object. */
  lemma TailKeyLifts(fs: Fields, prefix: string, k: string)
    requires fs != [] && PlainFields(fs)
    ensures LeafKey(Obj(fs[1..]), prefix, k) ==> LeafKey(Obj(fs), prefix, k)
  {
    if LeafKey(Obj(fs[1..]), prefix, k) {
      var p :| LeafPath(Obj(fs[1..]), p) && KeyOf(prefix, p) == k;
      LeafPathTail(fs, p);
      assert LeafPath(Obj(fs), p);
    }
  }

  /**
   * One member flattened under `prefix`: every leaf reached through it is
   * put under its key with its text, every key added is such a leaf key,
   * and every other key keeps its value.
   */
  lemma {:induction false} MemberLeaves(f: (string, Json), prefix: string, acc: map<string, string>)
    requires f.0 != [] && PlainNames(f.1)
    ensures var key, r := Dotted(prefix, f.0), FlattenMember(f, prefix, acc);
            (forall path :: LeafPath(f.1, path) ==>
               KeyOf(key, path) in r && r[KeyOf(key, path)] == AsText(RuleEngine.ResolvePath(f.1, path).value))
            && (forall k :: k in r ==> k in acc || LeafKey(f.1, key, k))
            && (forall k :: k in acc && !LeafKey(f.1, key, k) ==> k in r && r[k] == acc[k])
    decreases f, 0
  {
    var key := Dotted(prefix, f.0);
    if f.1.Obj? {
      assert f.1 == Obj(f.1.fields);
      FieldsLeaves(f.1.fields, key, acc);
    } else {
      assert LeafPath(f.1, []) && KeyOf(key, []) == key;
      forall path | LeafPath(f.1, path)
        ensures path == []
      {
      }
    }
  }

  /**
   * `flattenJsonToMap` at every depth: the members flattened under `prefix`
   * put every leaf under the key of its path with its text, add no other
   * key, and keep the value of every other key.
   */
  lemma {:induction false} FieldsLeaves(fs: Fields, prefix: string, acc: map<string, string>)
    requires PlainFields(fs)
    ensures var r := FlattenInto(fs, prefix, acc);
            (forall path :: LeafPath(Obj(fs), path) ==>
               KeyOf(prefix, path) in r && r[KeyOf(prefix, path)] == AsText(RuleEngine.ResolvePath(Obj(fs), path).value))
            && (forall k :: k in r ==> k in acc || LeafKey(Obj(fs), prefix, k))
            && (forall k :: k in acc && !LeafKey(Obj(fs), prefix, k) ==> k in r && r[k] == acc[k])
    decreases fs, 0
  {
    if fs == [] {
      forall path
        ensures !LeafPath(Obj(fs), path)
      {
        if path != [] {
          assert Lookup(fs, path[0]) == None;
        }
      }
    } else {
      var first, tail := fs[0], fs[1..];
      var key := Dotted(prefix, first.0);
      var mid := FlattenMember(first, prefix, acc);
      var r := FlattenInto(fs, prefix, acc);
      assert r == FlattenInto(tail, prefix, mid);
      PlainFieldsTail(fs);
      MemberLeaves(first, prefix, acc);
      FieldsLeaves(tail, prefix, mid);
      forall path | LeafPath(Obj(fs), path)
        ensures KeyOf(prefix, path) in r && r[KeyOf(prefix, path)] == AsText(RuleEngine.ResolvePath(Obj(fs), path).value)
      {
        LeafPathSplit(fs, path);
        if path[0] == first.0 {
          var q := path[1..];
          LeafPathFirst(fs, prefix, q);
          assert [first.0] + q == path;
          assert LeafPath(first.1, q);
          assert LeafKey(first.1, key, KeyOf(prefix, path));
          FirstKeysApart(fs, prefix, KeyOf(prefix, path));
        } else {
          assert LeafPath(Obj(tail), path);
        }
      }
      forall k | k in r
        ensures k in acc || LeafKey(Obj(fs), prefix, k)
      {
        FirstKeyLifts(fs, prefix, k);
        TailKeyLifts(fs, prefix, k);
      }
      forall k | k in acc && !LeafKey(Obj(fs), prefix, k)
        ensures k in r && r[k] == acc[k]
      {
        FirstKeyLifts(fs, prefix, k);
        TailKeyLifts(fs, prefix, k);
      }
    }
  }

  /** Keys start from the first name of the path when the top-level prefix is empty. */
  lemma {:induction false} KeyOfJoin(start: string, q: seq<string>)
    requires start != []
    ensures KeyOf(start, q) == JoinOnDot([start] + q)
    decreases q
  {
    if q != [] {
      var next := start + "." + q[0];
      assert Dotted(start, q[0]) == next;
      KeyOfJoin(next, q[1..]);
      var rest := q[1..];
      assert [start] + q == [start] + ([q[0]] + rest);
      assert ([start] + q)[1..] == q;
      if rest == [] {
        assert JoinOnDot([next] + rest) == next;
        assert JoinOnDot(q) == q[0];
      } else {
        assert ([next] + rest)[1..] == rest;
        assert JoinOnDot(q) == q[0] + "." + JoinOnDot(rest);
      }
    }
  }

  /**
   * `createVariableMap` of an object whose member names are plain at every
   * level: each leaf, however deep, is a variable named by its dot-joined
   * path and holding its text, and there is no other variable.
   */
  lemma ObjectVariables(fs: Fields)
    requires PlainFields(fs)
    ensures var vars := VariableMap(Obj(fs));
            (forall path :: LeafPath(Obj(fs), path) ==>
               JoinOnDot(path) in vars && vars[JoinOnDot(path)] == AsText(RuleEngine.ResolvePath(Obj(fs), path).value))
            && (forall k :: k in vars ==> exists path :: LeafPath(Obj(fs), path) && JoinOnDot(path) == k)
  {
    FieldsLeaves(fs, "", map[]);
    forall path | LeafPath(Obj(fs), path)
      ensures KeyOf("", path) == JoinOnDot(path)
    {
      assert path != [];
      var found := Lookup(fs, path[0]);
      var i :| 0 <= i < |fs| && fs[i] == (path[0], found.value);
      assert Dotted("", path[0]) == path[0];
      KeyOfJoin(path[0], path[1..]);
      assert [path[0]] + path[1..] == path;
    }
  }

  /** Every name on a path that resolves in a tree of plain names is itself plain. */
  lemma {:induction false} PlainPathNames(node: Json, path: seq<string>)
    requires PlainNames(node) && RuleEngine.ResolvePath(node, path).Some?
    ensures forall i :: 0 <= i < |path| ==> path[i] != [] && '.' !in path[i]
    decreases path
  {
    if path != [] {
      var child := Get(node, path[0]).value;
      var i :| 0 <= i < |node.fields| && node.fields[i] == (path[0], child);
      assert PlainMember(node.fields[i]);
      PlainPathNames(child, path[1..]);
      assert forall j :: 1 <= j < |path| ==> path[j] == path[1..][j - 1];
    }
  }

  /**
   * Every variable of an object message is the text of what a rule's
   * `$field` of the same name reads from that message: `${a.b}` in a
   * template and `{"$field": "a.b"}` in a rule see the same leaf.
   */
  lemma VariablesReadFields(fs: Fields)
    requires PlainFields(fs)
    ensures var vars := VariableMap(Obj(fs));
            forall k :: k in vars ==>
              RuleEngine.FieldValue(Obj(fs), k).Some?
              && !RuleEngine.FieldValue(Obj(fs), k).value.Obj?
              && vars[k] == AsText(RuleEngine.FieldValue(Obj(fs), k).value)
  {
    ObjectVariables(fs);
    var vars := VariableMap(Obj(fs));
    forall k | k in vars
      ensures RuleEngine.FieldValue(Obj(fs), k).Some?
              && !RuleEngine.FieldValue(Obj(fs), k).value.Obj?
              && vars[k] == AsText(RuleEngine.FieldValue(Obj(fs), k).value)
    {
      var path :| LeafPath(Obj(fs), path) && JoinOnDot(path) == k;
      PlainPathNames(Obj(fs), path);
      assert path != [];
      if |path| == 1 {
        assert k == path[0] && path[1..] == [];
      } else {
        RuleEngine.DottedFieldFollowsPath(Obj(fs), path);
      }
    }
  }

  /** The message `{"system": {"cpu": {"usage": 90}}}`. */
  function CpuMessage(): Json
  {
    Obj([("system", Obj([("cpu", Obj([("usage", Num(Int(90)))]))]))])
  }

  /** Its one leaf is the variable `system.cpu.usage`, holding "90", and it has no other variable. */
  lemma CpuMessageVariables()
    ensures VariableMap(CpuMessage()).Keys == {"system.cpu.usage"}
    ensures VariableMap(CpuMessage())["system.cpu.usage"] == "90"
  {
    var fs := CpuMessage().fields;
    var path := ["system", "cpu", "usage"];
    CpuMessagePlain();
    CpuLeaf();
    assert JoinOnDot(path) == "system.cpu.usage";
    assert AsText(Num(Int(90))) == "90";
    ObjectVariables(fs);
    var vars := VariableMap(Obj(fs));
    forall k | k in vars
      ensures k == "system.cpu.usage"
    {
      var p :| LeafPath(Obj(fs), p) && JoinOnDot(p) == k;
      OnlyCpuLeaf(p);
    }
  }

  lemma CpuMessagePlain()
    ensures CpuMessage().Obj? && PlainFields(CpuMessage().fields)
  {
    var usage: Fields := [("usage", Num(Int(90)))];
    var cpu: Fields := [("cpu", Obj(usage))];
    var system: Fields := [("system", Obj(cpu))];
    assert CpuMessage() == Obj(system);
    assert PlainMember(usage[0]) && PlainFields(usage);
    assert PlainMember(cpu[0]) && PlainFields(cpu);
    assert PlainMember(system[0]) && PlainFields(system);
  }

  lemma CpuLeaf()
    ensures RuleEngine.ResolvePath(CpuMessage(), ["system", "cpu", "usage"]) == Some(Num(Int(90)))
  {
    var usage: Fields := [("usage", Num(Int(90)))];
    var cpu: Fields := [("cpu", Obj(usage))];
    var path := ["system", "cpu", "usage"];
    assert path[1..] == ["cpu", "usage"] && path[1..][1..] == ["usage"];
    assert RuleEngine.ResolvePath(Obj(usage), ["usage"]) == Some(Num(Int(90)));
    assert RuleEngine.ResolvePath(Obj(cpu), ["cpu", "usage"]) == Some(Num(Int(90)));
  }

  /** A leaf path into a one-member object goes through that member. */
  lemma SingleMemberPath(name: string, v: Json, p: seq<string>)
    requires LeafPath(Obj([(name, v)]), p)
    ensures p != [] && p[0] == name && LeafPath(v, p[1..])
  {
    assert p != [];
  }

  /** A node that is not an object is its own only leaf. */
  lemma LeafOfScalar(v: Json, q: seq<string>)
    requires !v.Obj?
    ensures LeafPath(v, q) <==> q == []
  {
    if q != [] {
      assert Get(v, q[0]) == None;
    }
  }

  lemma OnlyCpuLeaf(p: seq<string>)
    requires LeafPath(CpuMessage(), p)
    ensures p == ["system", "cpu", "usage"]
  {
    var usage := Num(Int(90));
    var cpu := Obj([("usage", usage)]);
    SingleMemberPath("system", Obj([("cpu", cpu)]), p);
    SingleMemberPath("cpu", cpu, p[1..]);
    SingleMemberPath("usage", usage, p[2..]);
    assert p[1..][1..] == p[2..] && p[2..][1..] == p[3..];
    LeafOfScalar(usage, p[3..]);
    assert |p| == 3;
  }

  /** The service's own example: `${system.cpu.usage}` is filled from two levels down. */
  lemma NestedLeafRendered()
    ensures Render("CPU usage: " + "${" + "system.cpu.usage" + "}" + "%", CpuMessage()) == "CPU usage: " + "90" + "%"
  {
    CpuMessageVariables();
    var before, name, after := "CPU usage: ", "system.cpu.usage", "%";
    assert NoPlaceholder(before) && before[|before| - 1] != '$';
    assert '}' !in name && NoPlaceholder(after);
    OnePlaceholder(before, name, after, VariableMap(CpuMessage()));
  }

  // ---------------------------------------------------------------- the service

  class NotificationService {
    /** The Slack posts made so far, oldest first. */
    var sent: seq<SlackMessage>
    const readTree: JsonReader

    constructor(readTree: JsonReader)
      ensures sent == [] && this.readTree == readTree
    {
      sent := [];
      this.readTree := readTree;
    }

    /** `executeNotificationAction`: only provider "SLACK" posts; any exception is caught. */
    method ExecuteNotificationAction(action: NotificationAction, message: string)
      modifies this
      ensures sent == old(sent) + Outgoing(action, message, readTree)
    {
      var provider := RuleEngine.StringMember(action.params, "provider");
      if provider == Ok(Some("SLACK")) {
        SendSlackNotification(action, message);
      }
    }

    /** `sendNotification`: the same call without a configuration. */
    method SendNotification(action: NotificationAction, message: string)
      modifies this
      ensures sent == old(sent) + Outgoing(action, message, readTree)
    {
      ExecuteNotificationAction(action, message);
    }

    /** `sendSlackNotification`: posts the rendered template when both parameters are texts. */
    method SendSlackNotification(action: NotificationAction, message: string)
      modifies this
      ensures var url := RuleEngine.StringMember(action.params, "webhookURL");
              var template := RuleEngine.StringMember(action.params, "message");
              sent == old(sent) + (if url.Ok? && url.value.Some? && template.Ok? && template.value.Some?
                                   then [SlackMessage(url.value.value, Render(template.value.value, MessageNode(message, readTree)))]
                                   else [])
    {
      var url := RuleEngine.StringMember(action.params, "webhookURL");
      var template := RuleEngine.StringMember(action.params, "message");
      if url.Thrown? || template.Thrown? || url.value.None? || template.value.None? {
        return;
      }
      var node := MessageNode(message, readTree);
      var text := ReplaceVariables(template.value.value, node);
      sent := sent + [SlackMessage(url.value.value, text)];
    }

    /** `replaceVariables`. */
    method ReplaceVariables(template: string, node: Json) returns (text: string)
      ensures text == Render(template, node)
    {
      var vars := CreateVariableMap(node);
      text := Substitute(template, vars);
    }

    /** `createVariableMap`. */
    method CreateVariableMap(node: Json) returns (vars: map<string, string>)
      ensures vars == VariableMap(node)
    {
      vars := map[];
      if !node.Obj? && !node.Arr? {
        vars := vars["value" := AsText(node)];
        return;
      }
      if node.Obj? {
        vars := FlattenJsonToMap(node, "", vars);
      }
    }

    /** `flattenJsonToMap`: puts every leaf of an object node into `vars` under its dotted key. */
    method FlattenJsonToMap(node: Json, prefix: string, vars: map<string, string>) returns (result: map<string, string>)
      ensures result == if node.Obj? then FlattenInto(node.fields, prefix, vars) else vars
      decreases node
    {
      result := vars;
      if node.Obj? {
        var fields := node.fields;
        var i := 0;
        while i < |fields|
          invariant 0 <= i <= |fields|
          invariant FlattenInto(fields, prefix, vars) == FlattenInto(fields[i..], prefix, result)
        {
          assert fields[i..][1..] == fields[i + 1..];
          var field := fields[i];
          var key := if prefix == [] then field.0 else prefix + "." + field.0;
          if field.1.Obj? {
            assert field in fields;
            result := FlattenJsonToMap(field.1, key, result);
          } else {
            result := result[key := AsText(field.1)];
          }
          i := i + 1;
        }
        assert fields[i..] == [];
      }
    }
  }
}
