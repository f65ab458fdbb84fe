/**
 Event handler keys: "kind.namespace.name.handlerType", and the helpers that take
 them apart again by splitting at dots.
 */
module HandlerKeys {
  import opened Common

  predicate DotFree(s: string) {
    '.' !in s
  }

  /** `GenerateIdentifier`. */
  function Identifier(kind: string, namespace: string, name: string): string {
    ToLower(kind + "." + namespace + "." + name)
  }

  function NewEventHandlerKey(identifier: string, handlerType: string): string {
    identifier + "." + handlerType
  }

  function GetPrefixIdentifier(key: string): string {
    var keys := Split(key, '.');
    if 3 <= |keys| then keys[0] + "." + keys[1] + "." + keys[2] else ""
  }

  function GetHandlerType(key: string): string {
    var keys := Split(key, '.');
    if 4 <= |keys| then keys[3] else ""
  }

  function GetSourceName(key: string): string {
    var keys := Split(key, '.');
    if 4 <= |keys| then keys[2] else ""
  }

  lemma SplitAtDot(a: string, rest: string)
    requires DotFree(a)
    ensures Split(a + "." + rest, '.') == [a] + Split(rest, '.')
  {
    var s := a + "." + rest;
    assert s[|a|] == '.';
    var i := FirstOf(s, '.');
    assert forall j :: 0 <= j < |a| ==> s[j] == a[j];
    assert s[..|a|] == a && s[|a| + 1..] == rest;
  }

  lemma LowerDots(s: string)
    ensures DotFree(ToLower(s)) <==> DotFree(s)
  {
    forall i | 0 <= i < |s| ensures ToLower(s)[i] == '.' <==> s[i] == '.' {
    }
    if !DotFree(s) {
      var i :| 0 <= i < |s| && s[i] == '.';
      assert ToLower(s)[i] == '.';
    }
  }

  lemma IdentifierParts(kind: string, namespace: string, name: string)
    ensures Identifier(kind, namespace, name) == ToLower(kind) + "." + ToLower(namespace) + "." + ToLower(name)
  {
  }

  /** Dotted(a, b) is "a.b"; it associates. */
  function Dotted(a: string, b: string): string {
    a + "." + b
  }

  lemma DottedAssociates(a: string, b: string, c: string)
    ensures Dotted(Dotted(a, b), c) == Dotted(a, Dotted(b, c))
  {
  }

  lemma KeyParts(k: string, n: string, m: string, t: string)
    requires DotFree(k) && DotFree(n)
    ensures Split(Dotted(Dotted(Dotted(k, n), m), t), '.') == [k, n] + Split(Dotted(m, t), '.')
  {
    DottedAssociates(k, n, m);
    DottedAssociates(k, Dotted(n, m), t);
    DottedAssociates(n, m, t);
    SplitAtDot(k, Dotted(n, Dotted(m, t)));
    SplitAtDot(n, Dotted(m, t));
  }

  lemma PrefixOfPlainName(k: string, n: string, m: string, t: string)
    requires DotFree(k) && DotFree(n) && DotFree(m)
    ensures GetPrefixIdentifier(Dotted(Dotted(Dotted(k, n), m), t)) == Dotted(Dotted(k, n), m)
  {
    KeyParts(k, n, m, t);
    SplitAtDot(m, t);
    PrefixFromParts(Dotted(Dotted(Dotted(k, n), m), t), k, n, m, Split(t, '.'));
  }

  lemma CutAtDot(m: string)
    requires !DotFree(m)
    ensures var i := FirstOf(m, '.'); DotFree(m[..i]) && m == Dotted(m[..i], m[i + 1..])
  {
    var i := FirstOf(m, '.');
    assert m == m[..i] + [m[i]] + m[i + 1..];
  }

  lemma DottedNameParts(a: string, b: string, t: string)
    requires DotFree(a)
    ensures Split(Dotted(Dotted(a, b), t), '.') == [a] + Split(Dotted(b, t), '.')
  {
    DottedAssociates(a, b, t);
    SplitAtDot(a, Dotted(b, t));
  }

  /** A dotted name is cut at its first dot. */
  lemma PrefixOfDottedName(k: string, n: string, m: string, t: string)
    requires DotFree(k) && DotFree(n) && !DotFree(m)
    ensures GetPrefixIdentifier(Dotted(Dotted(Dotted(k, n), m), t)) == Dotted(Dotted(k, n), m[..FirstOf(m, '.')])
  {
    var a, b := m[..FirstOf(m, '.')], m[FirstOf(m, '.') + 1..];
    KeyParts(k, n, m, t);
    CutAtDot(m);
    DottedNameParts(a, b, t);
    PrefixFromParts(Dotted(Dotted(Dotted(k, n), m), t), k, n, a, Split(Dotted(b, t), '.'));
  }

  lemma PrefixFromParts(key: string, a: string, b: string, c: string, rest: seq<string>)
    requires Split(key, '.') == [a, b] + ([c] + rest)
    ensures GetPrefixIdentifier(key) == Dotted(Dotted(a, b), c)
  {
    assert Split(key, '.')[0] == a && Split(key, '.')[1] == b && Split(key, '.')[2] == c;
  }

  /** The prefix helper recovers the source identifier exactly when the source's name has no dot. */
  lemma PrefixUndoesKey(kind: string, namespace: string, name: string, handlerType: string)
    requires DotFree(kind) && DotFree(namespace)
    ensures (GetPrefixIdentifier(NewEventHandlerKey(Identifier(kind, namespace, name), handlerType))
             == Identifier(kind, namespace, name)) <==> DotFree(name)
  {
    var k, n, m := ToLower(kind), ToLower(namespace), ToLower(name);
    LowerDots(kind);
    LowerDots(namespace);
    LowerDots(name);
    IdentifierParts(kind, namespace, name);
    assert NewEventHandlerKey(Identifier(kind, namespace, name), handlerType) ==
           Dotted(Dotted(Dotted(k, n), m), handlerType);
    if DotFree(m) {
      PrefixOfPlainName(k, n, m, handlerType);
    } else {
      PrefixOfDottedName(k, n, m, handlerType);
      assert |Dotted(Dotted(k, n), m[..FirstOf(m, '.')])| < |Dotted(Dotted(k, n), m)|;
    }
  }

  /** For dot-free parts the other two helpers recover the name and the handler type. */
  lemma PartsOfKey(kind: string, namespace: string, name: string, handlerType: string)
    requires DotFree(kind) && DotFree(namespace) && DotFree(name) && DotFree(handlerType)
    ensures var key := NewEventHandlerKey(Identifier(kind, namespace, name), handlerType);
            GetSourceName(key) == ToLower(name) && GetHandlerType(key) == handlerType
  {
    var k, n, m := ToLower(kind), ToLower(namespace), ToLower(name);
    LowerDots(kind);
    LowerDots(namespace);
    LowerDots(name);
    IdentifierParts(kind, namespace, name);
    KeyParts(k, n, m, handlerType);
    SplitAtDot(m, handlerType);
  }
}
