/** The colour-theme preference: six named themes, a persisted choice, and the `--text-color` it applies. */
module Theme {
  import opened Wrappers

  /** `colorThemes`, in the order of its keys. */
  const ColorThemes: seq<(string, string)> := [
    ("forest", "#006110"),
    ("ocean", "#0066cc"),
    ("royal", "#6b21a8"),
    ("crimson", "#dc2626"),
    ("sunset", "#ea580c"),
    ("slate", "#374151")
  ]

  const ThemeStorageKey: string := "nutrilens-color-theme"
  const DefaultTheme: string := "forest"

  /** The key names of a list of pairs (`Object.keys`). */
  function Names(table: seq<(string, string)>): (r: seq<string>)
    ensures |r| == |table|
    ensures forall i :: 0 <= i < |table| ==> r[i] == table[i].0
    decreases |table|
  {
    if table == [] then [] else [table[0].0] + Names(table[1..])
  }

  /** The colour a table gives a name: `colorThemes[name]`, absent when it is not one of the keys. */
  function Lookup(table: seq<(string, string)>, name: string): (r: Option<string>)
    ensures r.Some? <==> name in Names(table)
    ensures r.Some? ==> (name, r.value) in table
    decreases |table|
  {
    if table == [] then None
    else if table[0].0 == name then Some(table[0].1)
    else
      assert Names(table) == [table[0].0] + Names(table[1..]);
      Lookup(table[1..], name)
  }

  /** `availableThemes`. */
  function AvailableThemes(): (r: seq<string>)
    ensures |r| == |ColorThemes|
    ensures forall i :: 0 <= i < |r| ==> r[i] == ColorThemes[i].0
  {
    Names(ColorThemes)
  }

  /** `name in colorThemes`, counting only the six own keys. */
  predicate IsKnown(name: string): (b: bool)
    ensures b <==> name in AvailableThemes()
    ensures b ==> exists color :: (name, color) in ColorThemes
  {
    Lookup(ColorThemes, name).Some?
  }

  /** The available themes are exactly the six keys, in order, and a name is known exactly when it is one of them. */
  lemma AvailableThemesAreTheKeys(name: string)
    ensures AvailableThemes() == ["forest", "ocean", "royal", "crimson", "sunset", "slate"]
    ensures IsKnown(name) <==> name in AvailableThemes()
    ensures IsKnown(DefaultTheme)
  {
    assert Names(ColorThemes) == ["forest", "ocean", "royal", "crimson", "sunset", "slate"];
  }

  /** The hook's state: `currentTheme`, the persisted slot, and the last value given to `--text-color`. */
  class ColorTheme {
    var currentTheme: string
    var saved: Option<string>
    var textColor: Option<string>

    /** `useState('forest')` over whatever the slot holds, before the load effect runs. */
    constructor (saved: Option<string>)
      ensures currentTheme == DefaultTheme && this.saved == saved && textColor == None
    {
      currentTheme := DefaultTheme;
      this.saved := saved;
      textColor := None;
    }

    /** `applyTheme`: sets `--text-color` to the theme's colour; an unknown name does nothing. */
    method ApplyTheme(name: string)
      modifies this`textColor
      ensures textColor == if IsKnown(name) then Lookup(ColorThemes, name) else old(textColor)
    {
      var color := Lookup(ColorThemes, name);
      if color.Some? {
        textColor := color;
      }
    }

    /** The load effect: a saved name is adopted only when it is a known theme. */
    method Load()
      modifies this`currentTheme, this`textColor
      ensures saved.Some? && IsKnown(saved.value) ==>
        currentTheme == saved.value && textColor == Lookup(ColorThemes, saved.value)
      ensures !(saved.Some? && IsKnown(saved.value)) ==>
        currentTheme == old(currentTheme) && textColor == old(textColor)
    {
      if saved.Some? && saved.value != "" && IsKnown(saved.value) {
        currentTheme := saved.value;
        ApplyTheme(saved.value);
      }
    }

    /** `changeTheme`: for a known name, sets the theme and applies its colour, then persists the name;
        `writeOk` says whether `localStorage.setItem` succeeds. When it throws, the theme and colour
        have already changed, the slot keeps its old value, and `threw` reports the escaping exception.
        An unknown name changes nothing at all. */
    method ChangeTheme(name: string, writeOk: bool) returns (threw: bool)
      modifies this
      ensures threw <==> IsKnown(name) && !writeOk
      ensures IsKnown(name) ==> currentTheme == name && textColor == Lookup(ColorThemes, name)
      ensures IsKnown(name) ==> saved == if writeOk then Some(name) else old(saved)
      ensures !IsKnown(name) ==> currentTheme == old(currentTheme) && saved == old(saved) && textColor == old(textColor)
    {
      threw := false;
      if IsKnown(name) {
        currentTheme := name;
        ApplyTheme(name);
        if writeOk {
          saved := Some(name);
        } else {
          threw := true;
        }
      }
    }
  }
}
