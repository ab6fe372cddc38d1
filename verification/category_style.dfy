/**
 `getCategoryIcon` and `getCategoryColor`: a stored icon class or colour name is
 looked up in an object literal, and a miss falls back to the help icon or to gray.

 In JavaScript, `table[key]` on an object literal also finds the members every
 object inherits from `Object.prototype` (`constructor`, `toString`, ...). Those are
 functions or objects, hence truthy, so `table[key] || fallback` hands them back
 instead of the fallback. `LookupAsWritten` models that reading of the code;
 `GetCategoryIcon` and `GetCategoryColor` are the own-property lookups the tables
 are evidently meant to be, and the two agree on every other key.
 */
module CategoryStyle {
  import opened Outcomes
  import opened Schema
  import opened Storage

  /** A lookup table as an object literal: its own keys and values, in source order. */
  type Table = seq<(string, string)>

  const IconTable: Table := [
    ("fas fa-utensils", "utensils"),
    ("fas fa-car", "car"),
    ("fas fa-shopping-cart", "shopping-cart"),
    ("fas fa-gamepad", "gamepad-2"),
    ("fas fa-bolt", "zap"),
    ("fas fa-heartbeat", "heart-pulse"),
    ("fas fa-question", "help-circle")
  ]

  const IconFallback := "help-circle"

  const ColorTable: Table := [
    ("red", "text-red-500 bg-red-500/10"),
    ("blue", "text-blue-500 bg-blue-500/10"),
    ("green", "text-green-500 bg-green-500/10"),
    ("purple", "text-purple-500 bg-purple-500/10"),
    ("yellow", "text-yellow-500 bg-yellow-500/10"),
    ("pink", "text-pink-500 bg-pink-500/10"),
    ("gray", "text-gray-500 bg-gray-500/10")
  ]

  const ColorFallback := "text-gray-500 bg-gray-500/10"

  /** The property names every object literal inherits from `Object.prototype`. */
  const PrototypeMembers: set<string> := {
    "constructor", "hasOwnProperty", "isPrototypeOf", "propertyIsEnumerable",
    "toLocaleString", "toString", "valueOf", "__proto__",
    "__defineGetter__", "__defineSetter__", "__lookupGetter__", "__lookupSetter__"
  }

  /** The value of the first own property named `key`, if there is one. */
  function OwnLookup(table: Table, key: string): (r: Option<string>)
    ensures r.Some? <==> exists i :: 0 <= i < |table| && table[i].0 == key
    ensures r.Some? ==> exists i :: 0 <= i < |table| && table[i] == (key, r.value)
  {
    if |table| == 0 then None
    else if table[0].0 == key then Some(table[0].1)
    else
      var r := OwnLookup(table[1..], key);
      assert forall i :: 1 <= i < |table| ==> table[i] == table[1..][i - 1];
      r
  }

  /** With no earlier row under the same key, the row at `i` is what the lookup finds. */
  lemma {:induction false} OwnLookupAt(table: Table, i: int)
    requires 0 <= i < |table|
    requires forall j :: 0 <= j < i ==> table[j].0 != table[i].0
    ensures OwnLookup(table, table[i].0) == Some(table[i].1)
  {
    if i > 0 {
      assert table[i] == table[1..][i - 1];
      OwnLookupAt(table[1..], i - 1);
    }
  }

  /** What `table[key] || fallback` evaluates to: a string, or an inherited function or object. */
  datatype JsValue = Str(s: string) | Inherited(member: string)

  /** `table[key] || fallback` as JavaScript evaluates it. */
  function LookupAsWritten(table: Table, key: string, fallback: string): (r: JsValue)
    ensures r.Inherited? <==> OwnLookup(table, key).None? && key in PrototypeMembers
  {
    match OwnLookup(table, key)
    case Some(v) => Str(if v == "" then fallback else v)
    case None => if key in PrototypeMembers then Inherited(key) else Str(fallback)
  }

  /** `table[key] || fallback` with the lookup confined to the table's own entries. */
  function LookupOwn(table: Table, key: string, fallback: string): (r: string)
    ensures r == fallback || exists i :: 0 <= i < |table| && r == table[i].1
    ensures (forall i :: 0 <= i < |table| ==> table[i].0 != key) ==> r == fallback
  {
    match OwnLookup(table, key)
    case Some(v) => if v == "" then fallback else v
    case None => fallback
  }

  /** Apart from the inherited member names, the code as written and the own-property lookup agree. */
  lemma AsWrittenAgreesOffPrototype(table: Table, key: string, fallback: string)
    requires key !in PrototypeMembers
    ensures LookupAsWritten(table, key, fallback) == Str(LookupOwn(table, key, fallback))
  {
  }

  /** The stored icon "constructor" gets back the inherited `Object` constructor, not an icon name. */
  lemma IconLookupLeaksPrototype()
    ensures LookupAsWritten(IconTable, "constructor", IconFallback) == Inherited("constructor")
  {
    assert forall i :: 0 <= i < |IconTable| ==> IconTable[i].0 != "constructor";
  }

  /** The stored colour "toString" gets back the inherited `toString` function, not a class list. */
  lemma ColorLookupLeaksPrototype()
    ensures LookupAsWritten(ColorTable, "toString", ColorFallback) == Inherited("toString")
  {
    assert forall i :: 0 <= i < |ColorTable| ==> ColorTable[i].0 != "toString";
  }

  /** `getCategoryIcon`: the icon the table maps `icon` to, or the help icon. */
  function GetCategoryIcon(icon: string): (r: string)
    ensures r == IconFallback || exists i :: 0 <= i < |IconTable| && r == IconTable[i].1
    ensures (forall i :: 0 <= i < |IconTable| ==> IconTable[i].0 != icon) ==> r == IconFallback
  {
    LookupOwn(IconTable, icon, IconFallback)
  }

  /** `getCategoryColor`: the class list the table maps `color` to, or gray's. */
  function GetCategoryColor(color: string): (r: string)
    ensures r == ColorFallback || exists i :: 0 <= i < |ColorTable| && r == ColorTable[i].1
    ensures (forall i :: 0 <= i < |ColorTable| ==> ColorTable[i].0 != color) ==> r == ColorFallback
  {
    LookupOwn(ColorTable, color, ColorFallback)
  }

  /** Every row of a table whose keys are all different is found by its own key. */
  lemma {:induction false} EveryRowFound(table: Table)
    requires forall i, j :: 0 <= i < j < |table| ==> table[i].0 != table[j].0
    ensures forall i :: 0 <= i < |table| ==> OwnLookup(table, table[i].0) == Some(table[i].1)
  {
    forall i | 0 <= i < |table|
      ensures OwnLookup(table, table[i].0) == Some(table[i].1)
    {
      OwnLookupAt(table, i);
    }
  }

  /** Each table finds each of its rows by the row's key. */
  lemma TablesFindEveryRow()
    ensures forall i :: 0 <= i < |IconTable| ==> GetCategoryIcon(IconTable[i].0) == IconTable[i].1
    ensures forall i :: 0 <= i < |ColorTable| ==> GetCategoryColor(ColorTable[i].0) == ColorTable[i].1
  {
    TableFindsEveryRow(IconTable, IconFallback);
    TableFindsEveryRow(ColorTable, ColorFallback);
  }

  lemma TableFindsEveryRow(table: Table, fallback: string)
    requires forall i, j :: 0 <= i < j < |table| ==> table[i].0 != table[j].0
    requires forall i :: 0 <= i < |table| ==> table[i].1 != ""
    ensures forall i :: 0 <= i < |table| ==> LookupOwn(table, table[i].0, fallback) == table[i].1
  {
    EveryRowFound(table);
  }

  /** The seeded category at position `i` carries the key of row `i` of both tables. */
  lemma SeedRow(i: int)
    requires 0 <= i < |DefaultCategories|
    ensures DefaultCategories[i].icon == IconTable[i].0 && DefaultCategories[i].color == ColorTable[i].0
  {
    if i == 0 {
    } else if i == 1 {
    } else if i == 2 {
    } else if i == 3 {
    } else if i == 4 {
    } else if i == 5 {
    } else {
    }
  }

  /** Every seeded category finds its own row of both tables: nothing falls back by accident. */
  lemma SeedCategoriesAreStyled()
    ensures forall i :: 0 <= i < |DefaultCategories| ==>
      GetCategoryIcon(DefaultCategories[i].icon) == IconTable[i].1 &&
      GetCategoryColor(DefaultCategories[i].color) == ColorTable[i].1
  {
    TablesFindEveryRow();
    forall i | 0 <= i < |DefaultCategories|
      ensures GetCategoryIcon(DefaultCategories[i].icon) == IconTable[i].1
      ensures GetCategoryColor(DefaultCategories[i].color) == ColorTable[i].1
    {
      SeedRow(i);
    }
  }
}
