/**
 * Key names between Python (snake_case) and GraphQL (camelCase), and the recursive
 * renaming of a document's keys.
 */
module KeyCodec {
  predicate Lower(c: char) { 'a' <= c <= 'z' }
  predicate Upper(c: char) { 'A' <= c <= 'Z' }
  predicate LowerOrDigit(c: char) { Lower(c) || '0' <= c <= '9' }

  function ToUpper(c: char): char { if Lower(c) then c - 'a' + 'A' else c }
  function ToLower(c: char): char { if Upper(c) then c - 'A' + 'a' else c }

  /** value.split("_") */
  function Split(s: string): (parts: seq<string>)
    ensures parts != []
  {
    if s == "" then [""]
    else
      var rest := Split(s[1..]);
      if s[0] == '_' then [""] + rest else [[s[0]] + rest[0]] + rest[1..]
  }

  function Capitalize(part: string): string {
    if part == "" then "" else [ToUpper(part[0])] + part[1..]
  }

  function JoinCapitalized(parts: seq<string>): string {
    if parts == [] then "" else Capitalize(parts[0]) + JoinCapitalized(parts[1..])
  }

  function SnakeToCamel(s: string): string {
    if '_' !in s then s else Camel(Split(s))
  }

  /** Insert an underscore between [a-z0-9] and [A-Z], then lower everything. */
  function CamelToSnake(s: string): string {
    if s == "" then ""
    else if |s| == 1 then [ToLower(s[0])]
    else [ToLower(s[0])] + (if LowerOrDigit(s[0]) && Upper(s[1]) then "_" else "") + CamelToSnake(s[1..])
  }

  /** Character by character: capital says that an underscore has just been dropped. */
  function Encode(s: string, capital: bool): string {
    if s == "" then ""
    else if s[0] == '_' then Encode(s[1..], true)
    else [if capital then ToUpper(s[0]) else s[0]] + Encode(s[1..], false)
  }

  function Camel(parts: seq<string>): string
    requires parts != []
  {
    parts[0] + JoinCapitalized(parts[1..])
  }

  /** A character before the first part, kept or capitalized. */
  lemma CamelCons(c: char, rest: seq<string>)
    requires rest != []
    ensures var parts := [[c] + rest[0]] + rest[1..];
            Camel(parts) == [c] + Camel(rest) && JoinCapitalized(parts) == [ToUpper(c)] + Camel(rest)
  {
    var parts := [[c] + rest[0]] + rest[1..];
    assert parts[1..] == rest[1..];
    assert Capitalize(parts[0]) == [ToUpper(c)] + rest[0];
  }

  lemma {:induction false} SplitEncode(s: string)
    ensures Camel(Split(s)) == Encode(s, false)
    ensures JoinCapitalized(Split(s)) == Encode(s, true)
  {
    if s != "" {
      SplitEncode(s[1..]);
      var rest := Split(s[1..]);
      if s[0] == '_' {
        assert ([""] + rest)[1..] == rest;
      } else {
        CamelCons(s[0], rest);
      }
    }
  }

  lemma {:induction false} PlainEncode(s: string)
    requires '_' !in s
    ensures Encode(s, false) == s
  {
    if s != "" {
      PlainEncode(s[1..]);
    }
  }

  lemma SnakeToCamelIsEncode(s: string)
    ensures SnakeToCamel(s) == Encode(s, false)
  {
    SplitEncode(s);
    if '_' !in s {
      PlainEncode(s);
    }
  }

  /** The same substitution seen from the left: joint says that the character before was in [a-z0-9]. */
  function Decode(s: string, joint: bool): string {
    if s == "" then ""
    else (if joint && Upper(s[0]) then "_" else "") + [ToLower(s[0])] + Decode(s[1..], LowerOrDigit(s[0]))
  }

  lemma {:induction false} CamelToSnakeIsDecode(s: string, joint: bool)
    ensures Decode(s, joint) == (if s != "" && joint && Upper(s[0]) then "_" else "") + CamelToSnake(s)
  {
    if |s| >= 2 {
      CamelToSnakeIsDecode(s[1..], LowerOrDigit(s[0]));
    }
  }

  /** Position i of a name that survives the round trip. */
  predicate RegularAt(s: string, i: nat)
    requires i < |s|
  {
    && !Upper(s[i])
    && (i > 0 && s[i - 1] == '_' ==> Lower(s[i]))
    && (s[i] == '_' ==>
          && 0 < i < |s| - 1
          && LowerOrDigit(s[i - 1])
          && !(i >= 2 && s[i - 2] == '_'))
  }

  /**
   * No capitals; every underscore stands between a lowercase letter or digit and a lowercase
   * letter, and a segment between two underscores has at least two characters.
   */
  predicate Regular(s: string) {
    forall i :: 0 <= i < |s| ==> RegularAt(s, i)
  }

  /** The same, scanned from the left. */
  predicate Scan(s: string, capital: bool, joint: bool) {
    if s == "" then !capital
    else if s[0] == '_' then !capital && joint && |s| > 1 && Scan(s[1..], true, true)
    else if capital then joint && Lower(s[0]) && Scan(s[1..], false, false)
    else !Upper(s[0]) && Scan(s[1..], false, LowerOrDigit(s[0]))
  }

  /** Joint at position k of a name that is regular so far. */
  predicate JointAt(s: string, k: nat)
    requires k <= |s|
  {
    k > 0 && (s[k - 1] == '_' || (LowerOrDigit(s[k - 1]) && !(k > 1 && s[k - 2] == '_')))
  }

  lemma {:induction false} ScanRegular(s: string, k: nat)
    requires k <= |s| && forall i :: 0 <= i < k ==> RegularAt(s, i)
    ensures Scan(s[k..], k > 0 && s[k - 1] == '_', JointAt(s, k)) <==> forall i :: k <= i < |s| ==> RegularAt(s, i)
    decreases |s| - k
  {
    if k < |s| {
      assert s[k..][0] == s[k] && s[k..][1..] == s[k + 1..];
      if k > 0 {
        assert RegularAt(s, k - 1);
      }
      if RegularAt(s, k) {
        ScanRegular(s, k + 1);
      }
    } else if k > 0 {
      assert RegularAt(s, k - 1);
    }
  }

  predicate NoUpper(s: string) {
    forall i :: 0 <= i < |s| ==> !Upper(s[i])
  }

  lemma DecodedNoUpper(s: string, joint: bool)
    ensures NoUpper(Decode(s, joint))
  {
  }

  lemma {:induction false} ScanNoUpper(s: string, capital: bool, joint: bool)
    requires Scan(s, capital, joint)
    ensures NoUpper(s)
  {
    if s != "" {
      if s[0] == '_' {
        ScanNoUpper(s[1..], true, true);
      } else {
        ScanNoUpper(s[1..], false, !capital && LowerOrDigit(s[0]));
      }
      assert s == [s[0]] + s[1..];
    }
  }

  /** Without capitals to begin with, a dropped underscore is all that can come back. */
  lemma DecodedLength(s: string, capital: bool, joint: bool)
    requires NoUpper(s)
    ensures |Decode(Encode(s, capital), joint)| <= |s| + if capital && joint then 1 else 0
  {
  }

  lemma LowerUpper(c: char)
    ensures Lower(c) ==> Upper(ToUpper(c)) && ToLower(ToUpper(c)) == c && !LowerOrDigit(ToUpper(c))
    ensures Upper(ToUpper(c)) <==> Lower(c) || Upper(c)
    ensures Upper(c) ==> ToUpper(c) == c && ToLower(c) != c
    ensures !Upper(c) ==> ToLower(c) == c
  {
  }

  /** Decoding what was encoded gives the name back, a pending underscore included. */
  predicate Restores(s: string, capital: bool, joint: bool) {
    Decode(Encode(s, capital), joint) == (if capital then "_" else "") + s
  }

  lemma UnderscoreStep(rest: string, capital: bool, joint: bool)
    requires NoUpper(rest)
    ensures Restores("_" + rest, capital, joint) <==> !capital && Restores(rest, true, joint)
  {
    assert ("_" + rest)[1..] == rest;
    DecodedLength(rest, true, joint);
  }

  lemma EncodeCons(c: char, rest: string, capital: bool)
    requires c != '_'
    ensures Encode([c] + rest, capital) == [if capital then ToUpper(c) else c] + Encode(rest, false)
  {
    assert ([c] + rest)[1..] == rest;
  }

  lemma DecodeCons(c: char, rest: string, joint: bool)
    ensures Decode([c] + rest, joint) ==
      (if joint && Upper(c) then "_" else "") + [ToLower(c)] + Decode(rest, LowerOrDigit(c))
  {
    assert ([c] + rest)[1..] == rest;
  }

  /** A restored capital: the underscore comes back before the lowered letter. */
  lemma CapitalRestored(c: char, rest: string)
    requires Lower(c)
    ensures Restores([c] + rest, true, true) <==> Restores(rest, false, false)
  {
    var e, encoded := ToUpper(c), Encode(rest, false);
    var decoded := Decode(encoded, false);
    assert Encode([c] + rest, true) == [e] + encoded by {
      EncodeCons(c, rest, true);
    }
    assert Decode([e] + encoded, true) == "_" + [c] + decoded by {
      LowerUpper(c);
      DecodeCons(e, encoded, true);
    }
    assert "_" + ([c] + rest) == "_" + [c] + rest;
    assert "" + rest == rest;
    SamePrefix("_" + [c], decoded, rest);
  }

  lemma CapitalStep(c: char, rest: string, joint: bool)
    requires c != '_' && !Upper(c) && NoUpper(rest)
    ensures Restores([c] + rest, true, joint) <==> joint && Lower(c) && Restores(rest, false, false)
  {
    if joint && Lower(c) {
      CapitalRestored(c, rest);
    } else {
      assert ([c] + rest)[1..] == rest;
      LowerUpper(c);
      DecodedLength(rest, false, LowerOrDigit(ToUpper(c)));
    }
  }

  lemma PlainStep(c: char, rest: string, joint: bool)
    requires c != '_' && !Upper(c)
    ensures Restores([c] + rest, false, joint) <==> Restores(rest, false, LowerOrDigit(c))
  {
    var s, decoded := [c] + rest, Decode(Encode(rest, false), LowerOrDigit(c));
    assert s[1..] == rest && "" + rest == rest && "" + s == s;
    LowerUpper(c);
    SamePrefix([c], decoded, rest);
    assert Decode(Encode(s, false), joint) == [c] + decoded;
  }

  /** Scanning accepts exactly what decoding restores. */
  lemma {:induction false} ScanExact(s: string, capital: bool, joint: bool)
    ensures Restores(s, capital, joint) <==> Scan(s, capital, joint)
  {
    if !NoUpper(s) {
      DecodedNoUpper(Encode(s, capital), joint);
      var i :| 0 <= i < |s| && Upper(s[i]);
      assert ((if capital then "_" else "") + s)[i + if capital then 1 else 0] == s[i];
      if Scan(s, capital, joint) {
        ScanNoUpper(s, capital, joint);
      }
    } else if s != "" {
      var c, rest := s[0], s[1..];
      assert s == [c] + rest && NoUpper(rest);
      if c == '_' {
        UnderscoreStep(rest, capital, joint);
        ScanExact(rest, true, joint);
      } else if capital {
        CapitalStep(c, rest, joint);
        ScanExact(rest, false, false);
      } else {
        PlainStep(c, rest, joint);
        ScanExact(rest, false, LowerOrDigit(c));
      }
    }
  }

  lemma SamePrefix(u: string, a: string, b: string)
    ensures u + a == u + b <==> a == b
  {
    if u + a == u + b {
      assert (u + a)[|u|..] == a && (u + b)[|u|..] == b;
    }
  }

  /** Converting to camel case and back restores a name exactly when it is regular. */
  lemma RoundTripIffRegular(s: string)
    ensures CamelToSnake(SnakeToCamel(s)) == s <==> Regular(s)
  {
    SnakeToCamelIsEncode(s);
    CamelToSnakeIsDecode(Encode(s, false), false);
    assert Decode(Encode(s, false), false) == CamelToSnake(Encode(s, false));
    ScanExact(s, false, false);
    ScanRegular(s, 0);
    assert s[0..] == s;
  }

  /** So distinct regular names stay distinct. */
  lemma CamelInjective(s: string, t: string)
    requires Regular(s) && Regular(t) && SnakeToCamel(s) == SnakeToCamel(t)
    ensures s == t
  {
    RoundTripIffRegular(s);
    RoundTripIffRegular(t);
  }

  /**
   * What is left of a name in camel case, written in snake case: a single underscore before each letter that
   * is capital or follows an underscore; all other underscores are lost.
   */
  function Canonical(s: string, capital: bool): string {
    if s == "" then ""
    else if s[0] == '_' then Canonical(s[1..], true)
    else if Upper(s[0]) || (capital && Lower(s[0])) then "_" + [ToLower(s[0])] + Canonical(s[1..], false)
    else [s[0]] + Canonical(s[1..], false)
  }

  /** Marking the capitals of a camel-case name. */
  function Marked(s: string): string {
    if s == "" then ""
    else (if Upper(s[0]) then "_" + [ToLower(s[0])] else [s[0]]) + Marked(s[1..])
  }

  lemma {:induction false} MarkedEncode(s: string, capital: bool)
    ensures Marked(Encode(s, capital)) == Canonical(s, capital) && '_' !in Encode(s, capital)
  {
    if s != "" {
      if s[0] == '_' {
        MarkedEncode(s[1..], true);
      } else {
        var c := if capital then ToUpper(s[0]) else s[0];
        MarkedEncode(s[1..], false);
        LowerUpper(s[0]);
        assert ([c] + Encode(s[1..], false))[1..] == Encode(s[1..], false);
      }
    }
  }

  lemma MarkedHead(s: string)
    requires s != "" && '_' !in s
    ensures Marked(s) != "" && (Marked(s)[0] == '_' <==> Upper(s[0]))
    ensures Upper(s[0]) ==> |Marked(s)| >= 2 && Marked(s)[1] == ToLower(s[0]) && Marked(s)[2..] == Marked(s[1..])
    ensures !Upper(s[0]) ==> Marked(s)[0] == s[0] && Marked(s)[1..] == Marked(s[1..])
  {
    assert s[0] in s;
  }

  lemma {:induction false} MarkedInjective(s: string, t: string)
    requires '_' !in s && '_' !in t && Marked(s) == Marked(t)
    ensures s == t
  {
    if s != "" {
      MarkedHead(s);
    }
    if t != "" {
      MarkedHead(t);
    }
    if s != "" && t != "" {
      MarkedInjective(s[1..], t[1..]);
      assert s == [s[0]] + s[1..] && t == [t[0]] + t[1..];
    }
  }

  /** Two names become the same in camel case exactly when they have the same canonical form. */
  lemma SameCamelIff(s: string, t: string)
    ensures SnakeToCamel(s) == SnakeToCamel(t) <==> Canonical(s, false) == Canonical(t, false)
  {
    SnakeToCamelIsEncode(s);
    SnakeToCamelIsEncode(t);
    MarkedEncode(s, false);
    MarkedEncode(t, false);
    if Canonical(s, false) == Canonical(t, false) {
      MarkedInjective(Encode(s, false), Encode(t, false));
    }
  }

  datatype Json = Atom(text: string) | List(items: seq<Json>) | Object(fields: seq<Field>)
  datatype Field = Field(key: string, value: Json)

  const JSON_SCALAR_FIELD := "configuration"

  /** result[key] = value: an existing key keeps its place and loses its value. */
  function Put(fields: seq<Field>, key: string, value: Json): seq<Field> {
    if fields == [] then [Field(key, value)]
    else if fields[0].key == key then [Field(key, value)] + fields[1..]
    else [fields[0]] + Put(fields[1..], key, value)
  }

  function CamelizeKeys(v: Json): Json
    decreases v, 0
  {
    match v
    case Atom(_) => v
    case List(items) => List(CamelizeItems(items))
    case Object(fields) => Object(CamelizeFields(fields))
  }

  function CamelizeItems(items: seq<Json>): seq<Json>
    decreases items, 0
  {
    if items == [] then [] else [CamelizeKeys(items[0])] + CamelizeItems(items[1..])
  }

  function CamelizeField(field: Field): Json
    decreases field, 1
  {
    if field.key == JSON_SCALAR_FIELD then field.value else CamelizeKeys(field.value)
  }

  function CamelizeFields(fields: seq<Field>): seq<Field>
    decreases fields, 0
  {
    if fields == [] then []
    else
      var n := |fields| - 1;
      Put(CamelizeFields(fields[..n]), SnakeToCamel(fields[n].key), CamelizeField(fields[n]))
  }

  predicate Unambiguous(fields: seq<Field>) {
    forall i, j :: 0 <= i < j < |fields| ==> fields[i].key != fields[j].key
  }

  /** Field k is the last whose key becomes this name. */
  predicate LastRenaming(fields: seq<Field>, k: int, name: string) {
    && 0 <= k < |fields| && SnakeToCamel(fields[k].key) == name
    && forall l :: k < l < |fields| ==> SnakeToCamel(fields[l].key) != name
  }

  /**
   * At every depth: lists item by item; a dictionary has each name once that some key becomes, with the value of the last such
   * key, renamed in turn unless the key says that it is plain data.
   */
  ghost predicate IsRenamed(v: Json, r: Json)
    decreases v, 2
  {
    match v
    case Atom(_) => r == v
    case List(items) => r.List? && |r.items| == |items| && forall i :: 0 <= i < |items| ==> IsRenamed(items[i], r.items[i])
    case Object(fields) =>
      && r.Object? && Unambiguous(r.fields)
      && (forall k :: 0 <= k < |fields| ==> exists j :: 0 <= j < |r.fields| && r.fields[j].key == SnakeToCamel(fields[k].key))
      && forall j :: 0 <= j < |r.fields| ==> Yields(v, r.fields[j])
  }

  ghost predicate Yields(v: Json, f: Field)
    requires v.Object?
    decreases v, 1
  {
    exists k :: LastRenaming(v.fields, k, f.key) && IsValueOf(v, k, f.value)
  }

  ghost predicate IsValueOf(v: Json, k: int, value: Json)
    requires v.Object? && 0 <= k < |v.fields|
    decreases v, 0
  {
    if v.fields[k].key == "configuration" then value == v.fields[k].value else IsRenamed(v.fields[k].value, value)
  }

  lemma {:induction false} PutKeeps(fields: seq<Field>, key: string, value: Json)
    requires Unambiguous(fields)
    ensures var put := Put(fields, key, value);
            && Unambiguous(put) && forall f :: f in put <==> f == Field(key, value) || (f.key != key && f in fields)
  {
    if fields != [] {
      var first, rest := fields[0], fields[1..];
      assert forall f :: f in fields <==> f == first || f in rest;
      if first.key == key {
        assert forall f :: f in rest ==> f.key != key;
      } else {
        PutKeeps(rest, key, value);
        var put := Put(rest, key, value);
        assert forall f :: f in put ==> f.key != first.key by {
          assert forall f :: f in rest ==> f.key != first.key;
        }
      }
    }
  }

  /** A dictionary is renamed to the names its keys become, each with the value of the last such key. */
  lemma {:induction false} FieldsByPosition(fields: seq<Field>)
    ensures Unambiguous(CamelizeFields(fields))
    ensures forall f :: f in CamelizeFields(fields) <==>
      exists k :: LastRenaming(fields, k, f.key) && f.value == CamelizeField(fields[k])
  {
    if fields != [] {
      var n := |fields| - 1;
      var name, value := SnakeToCamel(fields[n].key), CamelizeField(fields[n]);
      FieldsByPosition(fields[..n]);
      PutKeeps(CamelizeFields(fields[..n]), name, value);
      forall f: Field
        ensures (exists k :: LastRenaming(fields, k, f.key) && f.value == CamelizeField(fields[k]))
           <==> f == Field(name, value)
                || (f.key != name && exists k :: LastRenaming(fields[..n], k, f.key) && f.value == CamelizeField(fields[..n][k]))
      {
        LastRenamingStep(fields, f);
      }
    }
  }

  lemma LastRenamingStep(fields: seq<Field>, f: Field)
    requires fields != []
    ensures var n := |fields| - 1;
            var name, value := SnakeToCamel(fields[n].key), CamelizeField(fields[n]);
            (exists k :: LastRenaming(fields, k, f.key) && f.value == CamelizeField(fields[k]))
              <==> f == Field(name, value)
                   || (f.key != name && exists k :: LastRenaming(fields[..n], k, f.key) && f.value == CamelizeField(fields[..n][k]))
  {
    var n := |fields| - 1;
    var name := SnakeToCamel(fields[n].key);
    assert forall l :: 0 <= l < n ==> fields[..n][l] == fields[l];
    if f.key == name {
      assert LastRenaming(fields, n, name);
    } else {
      forall k
        ensures LastRenaming(fields, k, f.key) <==> LastRenaming(fields[..n], k, f.key)
      {
      }
    }
  }

  lemma {:induction false} ItemsByPosition(items: seq<Json>)
    ensures |CamelizeItems(items)| == |items| && forall i :: 0 <= i < |items| ==> CamelizeItems(items)[i] == CamelizeKeys(items[i])
  {
    if items != [] {
      ItemsByPosition(items[1..]);
    }
  }

  lemma {:induction false} SomeLastRenaming(fields: seq<Field>, k: nat) returns (last: nat)
    requires k < |fields|
    ensures LastRenaming(fields, last, SnakeToCamel(fields[k].key))
    decreases |fields| - k
  {
    if l :| k < l < |fields| && SnakeToCamel(fields[l].key) == SnakeToCamel(fields[k].key) {
      last := SomeLastRenaming(fields, l);
    } else {
      last := k;
    }
  }

  lemma {:induction false} RenamedByPosition(v: Json)
    ensures IsRenamed(v, CamelizeKeys(v))
    decreases v, 1
  {
    match v {
      case Atom(_) =>
      case List(items) =>
        ItemsByPosition(items);
        forall i | 0 <= i < |items| {
          RenamedByPosition(items[i]);
        }
      case Object(fields) => ObjectByPosition(v);
    }
  }

  lemma {:induction false} ObjectByPosition(v: Json)
    requires v.Object?
    ensures IsRenamed(v, CamelizeKeys(v))
    decreases v, 0
  {
    var fields, renamed := v.fields, CamelizeFields(v.fields);
    FieldsByPosition(fields);
    forall k | 0 <= k < |fields|
      ensures exists j :: 0 <= j < |renamed| && renamed[j].key == SnakeToCamel(fields[k].key)
    {
      var last := SomeLastRenaming(fields, k);
      assert Field(SnakeToCamel(fields[k].key), CamelizeField(fields[last])) in renamed;
    }
    forall j | 0 <= j < |renamed|
      ensures Yields(v, renamed[j])
    {
      assert renamed[j] in renamed;
      var k :| LastRenaming(fields, k, renamed[j].key) && renamed[j].value == CamelizeField(fields[k]);
      RenamedByPosition(fields[k].value);
      assert IsValueOf(v, k, renamed[j].value);
    }
  }

  /** At every depth that is renamed: keys are regular, and no key occurs twice in a dictionary. */
  predicate RegularKeys(v: Json)
    decreases v, 0
  {
    match v
    case Atom(_) => true
    case List(items) => forall i :: 0 <= i < |items| ==> RegularKeys(items[i])
    case Object(fields) =>
      && (forall i, j :: 0 <= i < j < |fields| ==> fields[i].key != fields[j].key)
      && forall i :: 0 <= i < |fields| ==>
           Regular(fields[i].key) && (fields[i].key == JSON_SCALAR_FIELD || RegularKeys(fields[i].value))
  }

  /** Renaming back, field by field. */
  function SnakeKeys(v: Json): Json
    decreases v, 0
  {
    match v
    case Atom(_) => v
    case List(items) => List(seq(|items|, i requires 0 <= i < |items| => SnakeKeys(items[i])))
    case Object(fields) => Object(seq(|fields|, i requires 0 <= i < |fields| => SnakeField(fields[i])))
  }

  function SnakeField(field: Field): Field
    decreases field, 1
  {
    Field(CamelToSnake(field.key), if field.key == JSON_SCALAR_FIELD then field.value else SnakeKeys(field.value))
  }

  /** _camelize_keys, with its loop over a dictionary's items. */
  method Camelize(v: Json) returns (r: Json)
    ensures r == CamelizeKeys(v)
    decreases v
  {
    match v {
      case Atom(_) => r := v;
      case List(items) =>
        var renamed: seq<Json> := [];
        for k := 0 to |items|
          invariant renamed + CamelizeItems(items[k..]) == CamelizeItems(items)
        {
          assert items[k..][1..] == items[k + 1..];
          var item := Camelize(items[k]);
          renamed := renamed + [item];
        }
        assert items[|items|..] == [];
        r := List(renamed);
      case Object(fields) =>
        var result: seq<Field> := [];
        for k := 0 to |fields|
          invariant result == CamelizeFields(fields[..k])
        {
          assert fields[..k + 1][..k] == fields[..k];
          var item := fields[k].value;
          if fields[k].key != JSON_SCALAR_FIELD {
            item := Camelize(item);
          }
          result := Put(result, SnakeToCamel(fields[k].key), item);
        }
        assert fields[..|fields|] == fields;
        r := Object(result);
    }
  }

  lemma PlainRegular(s: string)
    requires NoUpper(s) && '_' !in s
    ensures Regular(s)
  {
    assert forall i :: 0 <= i < |s| ==> s[i] != '_' && !Upper(s[i]);
  }

  lemma PutFresh(fields: seq<Field>, key: string, value: Json)
    requires forall i :: 0 <= i < |fields| ==> fields[i].key != key
    ensures Put(fields, key, value) == fields + [Field(key, value)]
  {
    if fields != [] {
      assert forall i :: 0 <= i < |fields[1..]| ==> fields[1..][i] == fields[i + 1];
    }
  }

  function Renamed(field: Field): Field {
    Field(SnakeToCamel(field.key), CamelizeField(field))
  }

  function AllRenamed(fields: seq<Field>): seq<Field> {
    seq(|fields|, i requires 0 <= i < |fields| => Renamed(fields[i]))
  }

  lemma AllRenamedSnoc(fields: seq<Field>)
    requires fields != []
    ensures AllRenamed(fields) == AllRenamed(fields[..|fields| - 1]) + [Renamed(fields[|fields| - 1])]
  {
  }

  /** With regular keys nothing is overwritten: one renamed entry per entry, in order. */
  lemma {:induction false} FieldsRenamed(fields: seq<Field>)
    requires RegularKeys(Object(fields))
    ensures CamelizeFields(fields) == AllRenamed(fields)
  {
    if fields != [] {
      var n := |fields| - 1;
      RegularPrefix(fields);
      FieldsRenamed(fields[..n]);
      AllRenamedSnoc(fields);
      RenamedApart(fields);
      PutFresh(AllRenamed(fields[..n]), SnakeToCamel(fields[n].key), CamelizeField(fields[n]));
    }
  }

  lemma RegularPrefix(fields: seq<Field>)
    requires RegularKeys(Object(fields)) && fields != []
    ensures RegularKeys(Object(fields[..|fields| - 1]))
  {
    var n := |fields| - 1;
    assert forall i :: 0 <= i < n ==> fields[..n][i] == fields[i];
  }

  /** The last entry is renamed to something no earlier one is. */
  lemma RenamedApart(fields: seq<Field>)
    requires RegularKeys(Object(fields)) && fields != []
    ensures var n := |fields| - 1;
            forall i :: 0 <= i < n ==> AllRenamed(fields[..n])[i].key != SnakeToCamel(fields[n].key)
  {
    var n := |fields| - 1;
    forall i | 0 <= i < n
      ensures AllRenamed(fields[..n])[i].key != SnakeToCamel(fields[n].key)
    {
      if SnakeToCamel(fields[i].key) == SnakeToCamel(fields[n].key) {
        CamelInjective(fields[i].key, fields[n].key);
      }
    }
  }

  lemma ItemsRenamed(items: seq<Json>)
    ensures CamelizeItems(items) == seq(|items|, i requires 0 <= i < |items| => CamelizeKeys(items[i]))
  {
  }

  lemma ScalarFieldKept(key: string)
    requires Regular(key)
    ensures SnakeToCamel(key) == JSON_SCALAR_FIELD <==> key == JSON_SCALAR_FIELD
  {
    PlainRegular(JSON_SCALAR_FIELD);
    if SnakeToCamel(key) == JSON_SCALAR_FIELD {
      CamelInjective(key, JSON_SCALAR_FIELD);
    }
  }

  /** Renaming the keys of a document with regular keys loses no entry at any depth: it can be undone. */
  lemma {:induction false} CamelizeReversible(v: Json)
    requires RegularKeys(v)
    ensures SnakeKeys(CamelizeKeys(v)) == v
    decreases v, 0
  {
    match v {
      case Atom(_) =>
      case List(items) =>
        ItemsRenamed(items);
        forall i | 0 <= i < |items|
          ensures SnakeKeys(CamelizeKeys(items[i])) == items[i]
        {
          CamelizeReversible(items[i]);
        }
      case Object(fields) =>
        FieldsRenamed(fields);
        forall i | 0 <= i < |fields|
          ensures SnakeField(Renamed(fields[i])) == fields[i]
        {
          FieldReversible(fields[i]);
        }
    }
  }

  lemma {:induction false} FieldReversible(field: Field)
    requires Regular(field.key) && (field.key == JSON_SCALAR_FIELD || RegularKeys(field.value))
    ensures SnakeField(Renamed(field)) == field
    decreases field, 1
  {
    RoundTripIffRegular(field.key);
    ScalarFieldKept(field.key);
    if field.key != JSON_SCALAR_FIELD {
      CamelizeReversible(field.value);
    }
  }

  /** Irregular keys can collide, and then an entry is lost. */
  lemma IrregularKeysCollide(x: Json, y: Json)
    requires x.Atom? && y.Atom?
    ensures CamelizeKeys(Object([Field("a_1", x), Field("a1", y)])) == Object([Field("a1", y)])
  {
    var fields := [Field("a_1", x), Field("a1", y)];
    assert fields[..1] == [fields[0]] && fields[..1][..0] == [];
    SnakeToCamelIsEncode("a_1");
    assert "a_1"[1..] == "_1" && "_1"[1..] == "1" && "1"[1..] == "";
    assert Encode("a_1", false) == "a1";
    assert |"a_1"| != |JSON_SCALAR_FIELD| && |"a1"| != |JSON_SCALAR_FIELD|;
    assert CamelizeField(fields[0]) == x && CamelizeField(fields[1]) == y;
    assert CamelizeFields([]) == [] && Put([], "a1", x) == [Field("a1", x)];
    assert CamelizeFields(fields[..1]) == [Field("a1", x)];
    assert SnakeToCamel("a1") == "a1";
    assert [Field("a1", y)] + [Field("a1", x)][1..] == [Field("a1", y)];
  }

  /** How many entries a document has, at all depths. */
  function Entries(v: Json): nat
    decreases v, 0
  {
    match v
    case Atom(_) => 0
    case List(items) => ItemEntries(items)
    case Object(fields) => FieldEntries(fields)
  }

  function ItemEntries(items: seq<Json>): nat
    decreases items, 0
  {
    if items == [] then 0 else Entries(items[0]) + ItemEntries(items[1..])
  }

  function FieldEntries(fields: seq<Field>): nat
    decreases fields, 0
  {
    if fields == [] then 0 else FieldEntries(fields[..|fields| - 1]) + 1 + Entries(fields[|fields| - 1].value)
  }

  /** At every depth that is renamed, no two keys of a dictionary have the same canonical form. */
  predicate Lossless(v: Json)
    decreases v, 0
  {
    match v
    case Atom(_) => true
    case List(items) => forall i :: 0 <= i < |items| ==> Lossless(items[i])
    case Object(fields) => Apart(fields) && forall i :: 0 <= i < |fields| ==> LosslessField(fields[i])
  }

  predicate LosslessField(field: Field)
    decreases field, 1
  {
    field.key == JSON_SCALAR_FIELD || Lossless(field.value)
  }

  predicate Apart(fields: seq<Field>) {
    forall i, j :: 0 <= i < j < |fields| ==> Canonical(fields[i].key, false) != Canonical(fields[j].key, false)
  }

  predicate Has(fields: seq<Field>, key: string) {
    exists i :: 0 <= i < |fields| && fields[i].key == key
  }

  lemma FieldEntriesConcat(a: seq<Field>, b: seq<Field>)
    ensures FieldEntries(a + b) == FieldEntries(a) + FieldEntries(b)
  {
    if b == [] {
      assert a + b == a;
    } else {
      assert (a + b)[..|a + b| - 1] == a + b[..|b| - 1];
      FieldEntriesConcat(a, b[..|b| - 1]);
    }
  }

  lemma FieldEntriesOne(field: Field)
    ensures FieldEntries([field]) == 1 + Entries(field.value)
  {
    assert [field][..0] == [];
  }

  /** Assigning to an existing key loses an entry, and whatever it held. */
  lemma {:induction false} PutEntries(fields: seq<Field>, key: string, value: Json)
    ensures FieldEntries(Put(fields, key, value)) <= FieldEntries(fields) + 1 + Entries(value)
    ensures FieldEntries(Put(fields, key, value)) == FieldEntries(fields) + 1 + Entries(value) <==> !Has(fields, key)
  {
    FieldEntriesOne(Field(key, value));
    if fields != [] {
      var first, rest := fields[0], fields[1..];
      assert fields == [first] + rest;
      FieldEntriesConcat([first], rest);
      FieldEntriesOne(first);
      if first.key == key {
        FieldEntriesConcat([Field(key, value)], rest);
      } else {
        PutEntries(rest, key, value);
        FieldEntriesConcat([first], Put(rest, key, value));
        HasFirst(first, rest, key);
      }
    }
  }

  lemma HasFirst(first: Field, rest: seq<Field>, key: string)
    ensures Has([first] + rest, key) <==> first.key == key || Has(rest, key)
  {
    var fields := [first] + rest;
    if Has(rest, key) {
      var i :| 0 <= i < |rest| && rest[i].key == key;
      assert fields[i + 1].key == key;
    }
    if first.key == key {
      assert fields[0].key == key;
    }
    if Has(fields, key) && first.key != key {
      var i :| 0 <= i < |fields| && fields[i].key == key;
      assert rest[i - 1].key == key;
    }
  }

  lemma {:induction false} PutHas(fields: seq<Field>, key: string, value: Json, other: string)
    ensures Has(Put(fields, key, value), other) <==> Has(fields, other) || other == key
  {
    if fields == [] {
      HasFirst(Field(key, value), [], other);
      assert [Field(key, value)] + [] == [Field(key, value)];
    } else {
      var first, rest := fields[0], fields[1..];
      assert fields == [first] + rest;
      HasFirst(first, rest, other);
      if first.key == key {
        HasFirst(Field(key, value), rest, other);
      } else {
        PutHas(rest, key, value, other);
        HasFirst(first, Put(rest, key, value), other);
      }
    }
  }

  /** The keys after renaming. */
  lemma {:induction false} CamelizedHas(fields: seq<Field>, key: string)
    ensures Has(CamelizeFields(fields), key) <==> exists i :: 0 <= i < |fields| && SnakeToCamel(fields[i].key) == key
  {
    if fields != [] {
      var n := |fields| - 1;
      CamelizedHas(fields[..n], key);
      PutHas(CamelizeFields(fields[..n]), SnakeToCamel(fields[n].key), CamelizeField(fields[n]), key);
      assert forall i :: 0 <= i < n ==> fields[..n][i] == fields[i];
    }
  }

  lemma ApartLast(fields: seq<Field>)
    requires fields != []
    ensures var n := |fields| - 1;
            Apart(fields) <==> Apart(fields[..n]) && !Has(CamelizeFields(fields[..n]), SnakeToCamel(fields[n].key))
  {
    var n := |fields| - 1;
    var before, last := fields[..n], fields[n];
    assert fields == before + [last];
    LastCollides(before, last.key);
    ApartSnoc(before, last);
  }

  /** Some key of these has the canonical form of this one. */
  predicate Taken(fields: seq<Field>, key: string) {
    exists i :: 0 <= i < |fields| && Canonical(fields[i].key, false) == Canonical(key, false)
  }

  lemma ApartSnoc(fields: seq<Field>, last: Field)
    ensures Apart(fields + [last]) <==> Apart(fields) && !Taken(fields, last.key)
  {
    var all := fields + [last];
    assert forall i :: 0 <= i < |fields| ==> all[i] == fields[i];
    assert all[|fields|] == last;
    if Apart(all) {
      assert !Taken(fields, last.key);
      assert Apart(fields);
    }
  }

  lemma LastCollides(fields: seq<Field>, key: string)
    ensures Has(CamelizeFields(fields), SnakeToCamel(key)) <==> Taken(fields, key)
  {
    CamelizedHas(fields, SnakeToCamel(key));
    forall i | 0 <= i < |fields|
      ensures SnakeToCamel(fields[i].key) == SnakeToCamel(key) <==> Canonical(fields[i].key, false) == Canonical(key, false)
    {
      SameCamelIff(fields[i].key, key);
    }
  }

  /** Renaming never adds entries, and keeps them all exactly when no two keys have the same canonical form. */
  lemma {:induction false} EntriesKeptIff(v: Json)
    ensures Entries(CamelizeKeys(v)) <= Entries(v)
    ensures Entries(CamelizeKeys(v)) == Entries(v) <==> Lossless(v)
    decreases v, 1
  {
    match v {
      case Atom(_) =>
      case List(items) => ItemsKeptIff(items);
      case Object(fields) => FieldsKeptIff(fields);
    }
  }

  lemma {:induction false} ItemsKeptIff(items: seq<Json>)
    ensures ItemEntries(CamelizeItems(items)) <= ItemEntries(items)
    ensures ItemEntries(CamelizeItems(items)) == ItemEntries(items) <==> forall i :: 0 <= i < |items| ==> Lossless(items[i])
    decreases items, 0
  {
    if items != [] {
      ItemsKeptIff(items[1..]);
      EntriesKeptIff(items[0]);
      var first, rest := CamelizeKeys(items[0]), CamelizeItems(items[1..]);
      assert ([first] + rest)[1..] == rest;
      assert forall i :: 0 <= i < |items| - 1 ==> items[1..][i] == items[i + 1];
      assert (forall i :: 0 <= i < |items| ==> Lossless(items[i])) <==>
        Lossless(items[0]) && forall i :: 0 <= i < |items| - 1 ==> Lossless(items[1..][i]) by {
        if forall i :: 0 <= i < |items| - 1 ==> Lossless(items[1..][i]) {
          forall i | 1 <= i < |items|
            ensures Lossless(items[i])
          {
            assert Lossless(items[1..][i - 1]);
          }
        }
      }
    }
  }

  lemma {:induction false} FieldsKeptIff(fields: seq<Field>)
    ensures FieldEntries(CamelizeFields(fields)) <= FieldEntries(fields)
    ensures FieldEntries(CamelizeFields(fields)) == FieldEntries(fields) <==>
      Apart(fields) && forall i :: 0 <= i < |fields| ==> LosslessField(fields[i])
    decreases fields, 0
  {
    if fields != [] {
      var n := |fields| - 1;
      FieldsKeptIff(fields[..n]);
      if fields[n].key != JSON_SCALAR_FIELD {
        EntriesKeptIff(fields[n].value);
      }
      PutEntries(CamelizeFields(fields[..n]), SnakeToCamel(fields[n].key), CamelizeField(fields[n]));
      ApartLast(fields);
      LosslessLast(fields);
    }
  }

  lemma LosslessLast(fields: seq<Field>)
    requires fields != []
    ensures var n := |fields| - 1;
            (forall i :: 0 <= i < |fields| ==> LosslessField(fields[i]))
            <==> (forall i :: 0 <= i < n ==> LosslessField(fields[..n][i])) && LosslessField(fields[n])
  {
    var n := |fields| - 1;
    assert forall i :: 0 <= i < n ==> fields[..n][i] == fields[i];
  }
}
