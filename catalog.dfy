/**
 * The component catalog: the fixed character sets from which emoticons are
 * assembled, looked up by component name, and the list of exceptional
 * emoticons that follow no grammar.
 *
 * A standard record has the slots Reversible, L2R and R2L.  An Eastern
 * record for sides or eyes has Reversible, Left, Right and Paired; the
 * Eastern mouth record has Reversible only.  An empty string in a slot
 * means that the component is optional.  An unknown name yields an object
 * with no slots at all, modelled as `None`.
 */
module Catalog {
  import opened Collections

  datatype StandardComponent = StandardComponent(
    reversible: seq<string>, l2r: seq<string>, r2l: seq<string>)

  /** A left character that must be matched by a particular right one. */
  datatype Pair = Pair(left: string, right: string)

  datatype EasternComponent =
    | Sided(reversible: seq<string>, left: seq<string>, right: seq<string>, paired: seq<Pair>)
    | ReversibleOnly(reversible: seq<string>)

  // ---------------------------------------------------------------------
  // Normalising the component name: `type.toLowerCase().trim()`.
  // ---------------------------------------------------------------------

  /** The characters `String.prototype.trim` removes (white space and line terminators). */
  predicate IsJsWhiteSpace(c: char) {
    var n := c as int;
    n == 0x09 || n == 0x0A || n == 0x0B || n == 0x0C || n == 0x0D || n == 0x20
    || n == 0xA0 || n == 0x1680 || (0x2000 <= n <= 0x200A) || n == 0x2028
    || n == 0x2029 || n == 0x202F || n == 0x205F || n == 0x3000 || n == 0xFEFF
  }

  predicate AllWhiteSpace(s: string) {
    forall i :: 0 <= i < |s| ==> IsJsWhiteSpace(s[i])
  }

  function LowerChar(c: char): char {
    if 'A' <= c <= 'Z' then (c as int + 32) as char else c
  }

  function UpperChar(c: char): char {
    if 'a' <= c <= 'z' then (c as int - 32) as char else c
  }

  /** Lower-cases the Latin letters A to Z and keeps every other character. */
  function ToLower(s: string): (r: string)
    ensures |r| == |s|
  {
    seq(|s|, i requires 0 <= i < |s| => LowerChar(s[i]))
  }

  function ToUpper(s: string): (r: string)
    ensures |r| == |s|
  {
    seq(|s|, i requires 0 <= i < |s| => UpperChar(s[i]))
  }

  function TrimStart(s: string): (r: string)
    ensures r == [] || !IsJsWhiteSpace(r[0])
    ensures |r| <= |s| && r == s[|s| - |r|..]
  {
    if s != [] && IsJsWhiteSpace(s[0]) then TrimStart(s[1..]) else s
  }

  function TrimEnd(s: string): (r: string)
    ensures r == [] || !IsJsWhiteSpace(r[|r| - 1])
    ensures |r| <= |s| && r == s[..|r|]
  {
    if s != [] && IsJsWhiteSpace(s[|s| - 1]) then TrimEnd(s[..|s| - 1]) else s
  }

  function Trim(s: string): string {
    TrimEnd(TrimStart(s))
  }

  /** The name as the lookup switch compares it. */
  function Key(name: string): string {
    Trim(ToLower(name))
  }

  lemma {:induction false} TrimStartSkipsWhite(w: string, x: string)
    requires AllWhiteSpace(w)
    ensures TrimStart(w + x) == TrimStart(x)
  {
    if w != [] {
      assert (w + x)[1..] == w[1..] + x;
      TrimStartSkipsWhite(w[1..], x);
    } else {
      assert w + x == x;
    }
  }

  lemma {:induction false} TrimEndSkipsWhite(x: string, w: string)
    requires AllWhiteSpace(w)
    ensures TrimEnd(x + w) == TrimEnd(x)
  {
    if w != [] {
      var w' := w[..|w| - 1];
      assert (x + w)[..|x + w| - 1] == x + w';
      TrimEndSkipsWhite(x, w');
    } else {
      assert x + w == x;
    }
  }

  /** Trailing white space survives `TrimStart` unless everything was white. */
  lemma {:induction false} TrimStartKeepsSuffix(x: string, w: string)
    requires AllWhiteSpace(w)
    ensures TrimStart(x) != [] ==> TrimStart(x + w) == TrimStart(x) + w
    ensures TrimStart(x) == [] ==> TrimStart(x + w) == []
  {
    if x == [] {
      assert x + w == w;
      TrimStartSkipsWhite(w, []);
      assert w + [] == w;
    } else if IsJsWhiteSpace(x[0]) {
      assert (x + w)[1..] == x[1..] + w;
      TrimStartKeepsSuffix(x[1..], w);
    }
  }

  /** Surrounding white space does not change the trimmed text. */
  lemma TrimIgnoresSurroundingWhite(w1: string, x: string, w2: string)
    requires AllWhiteSpace(w1) && AllWhiteSpace(w2)
    ensures Trim(w1 + x + w2) == Trim(x)
  {
    var y := x + w2;
    assert w1 + x + w2 == w1 + y;
    TrimStartSkipsWhite(w1, y);
    assert TrimStart(w1 + x + w2) == TrimStart(y);
    TrimStartKeepsSuffix(x, w2);
    var t := TrimStart(x);
    if t != [] {
      assert TrimStart(y) == t + w2;
      TrimEndSkipsWhite(t, w2);
    } else {
      assert TrimStart(y) == [];
    }
  }

  /** A lookup key ignores white space around the name. */
  lemma KeyIgnoresSurroundingWhite(w1: string, name: string, w2: string)
    requires AllWhiteSpace(w1) && AllWhiteSpace(w2)
    ensures Key(w1 + name + w2) == Key(name)
  {
    assert ToLower(w1 + name + w2) == ToLower(w1) + ToLower(name) + ToLower(w2);
    assert ToLower(w1) == w1 && ToLower(w2) == w2;
    TrimIgnoresSurroundingWhite(w1, ToLower(name), w2);
  }

  /** A name already in lower case without surrounding white space is its own key. */
  lemma KeyOfLowerCaseName(name: string)
    requires forall i :: 0 <= i < |name| ==> 'a' <= name[i] <= 'z'
    ensures Key(name) == name
  {
    assert ToLower(name) == name;
  }

  /** A lookup key ignores the case of the Latin letters in the name. */
  lemma KeyIgnoresCase(name: string)
    ensures Key(ToUpper(name)) == Key(name)
  {
    var upper := ToUpper(name);
    forall i | 0 <= i < |name| ensures ToLower(upper)[i] == ToLower(name)[i] {
      LowerOfUpper(name[i]);
    }
    assert ToLower(upper) == ToLower(name);
  }

  lemma LowerOfUpper(c: char)
    ensures LowerChar(UpperChar(c)) == LowerChar(c)
  {
  }

  // ---------------------------------------------------------------------
  // The catalog proper.
  // ---------------------------------------------------------------------

  predicate IsStandardName(key: string) {
    key == "brows" || key == "nose" || key == "mouth" || key == "eyes"
  }

  predicate IsEasternName(key: string) {
    key == "sides" || key == "eyes" || key == "mouth"
  }

  /** Gets one component of a standard emoticon. */
  function StandardObject(name: string): (r: Option<StandardComponent>)
    ensures r.Some? <==> IsStandardName(Key(name))
  {
    StandardRecord(Key(name))
  }

  /** The standard records by their key. */
  function StandardRecord(key: string): Option<StandardComponent> {
    if key == "brows" then
      Some(StandardComponent(["|", ""], [">", "}"], ["<", "{"]))
    else if key == "nose" then
      Some(StandardComponent(["-", "^", "v", "*", " ", ""], [], []))
    else if key == "mouth" then
      Some(StandardComponent(
        ["O", "0", "o", "D", "C", "c", "T", "K", "S", "s", "I", "v", "V", "L",
         "<", "(", ">", ")", "{", "}", "]", "[", "/", "\\", "|", "*"],
        ["P", "p", "F", "J", "B", "b", "3"],
        ["d", "q"]))
    else if key == "eyes" then
      Some(StandardComponent([":", "=", "X", "8"], [";", "B"], []))
    else
      None
  }

  /** Gets one component of an Eastern emoticon. */
  function EasternObject(name: string): (r: Option<EasternComponent>)
    ensures r.Some? <==> IsEasternName(Key(name))
    ensures r.Some? ==> (r.value.Sided? <==> Key(name) != "mouth")
  {
    EasternRecord(Key(name))
  }

  /** The Eastern records by their key. */
  function EasternRecord(key: string): Option<EasternComponent> {
    if key == "sides" then
      Some(Sided([], [], [],
        [Pair("(", ")"), Pair("[", "]"), Pair("{", "}"), Pair("d", "b"), Pair("", "")]))
    else if key == "eyes" then
      Some(Sided(
        ["+", "-", "^", "'", "T", "O", "o", "0", ".", "X", "*", "@", "~", ";", "=",
         "u", "q", "p"],
        [">"],
        ["<"],
        [Pair(">", ">"), Pair("<", "<")]))
    else if key == "mouth" then
      Some(ReversibleOnly(["_", "-", ".", "!", "n", "0", "O", "o", "J", "~", "w", "3"]))
    else
      None
  }

  /** Emoticons that do not follow the usual structure but are still valid. */
  function EmoticonExceptions(): (r: seq<string>)
    ensures "<3" in r
  {
    ["<3"]
  }

  /** Looking a name up ignores case and surrounding white space. */
  lemma LookupIgnoresCaseAndWhiteSpace(w1: string, name: string, w2: string)
    requires AllWhiteSpace(w1) && AllWhiteSpace(w2)
    ensures StandardObject(w1 + ToUpper(name) + w2) == StandardObject(name)
    ensures EasternObject(w1 + ToUpper(name) + w2) == EasternObject(name)
  {
    KeyIgnoresSurroundingWhite(w1, ToUpper(name), w2);
    KeyIgnoresCase(name);
  }
}
