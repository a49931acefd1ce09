/** The "Add New Category" form: a name typed freely, a colour and an icon picked from
    fixed palettes, and a submit that hands the triple on and resets the form. */
module CategoryManager {
  import opened Wrappers
  import opened Strings
  import TaskCard

  const COLORS: seq<string> := [
    "#3b82f6", "#8b5cf6", "#10b981", "#f59e0b", "#ec4899",
    "#06b6d4", "#a855f7", "#6b7280", "#ef4444", "#14b8a6"]

  const ICONS: seq<string> := [
    "📚", "✏️", "🧹", "⚽", "🎮", "📖", "🎵", "📌", "🎨", "🏃", "🍎", "💻"]

  /** The record passed to `onAddCategory`; the store gives it its id. */
  datatype NewCategory = NewCategory(name: string, color: string, icon: string)

  /** The palettes hold 10 distinct colours and 12 distinct icons, and the card's
      fallbacks, the grey border and the pin, are entries of them. */
  lemma Palettes()
    ensures |COLORS| == 10 && |ICONS| == 12
    ensures forall i, j :: 0 <= i < j < |COLORS| ==> COLORS[i] != COLORS[j]
    ensures forall i, j :: 0 <= i < j < |ICONS| ==> ICONS[i] != ICONS[j]
    ensures COLORS[7] == TaskCard.DEFAULT_BORDER_COLOR && ICONS[7] == TaskCard.DEFAULT_ICON
    ensures forall i :: 0 <= i < |COLORS| ==> COLORS[i] != "" && COLORS[i][0] == '#'
  {
  }

  /** The form's state: `name`, `color` and `icon`. */
  class CategoryForm {
    var name: string
    var color: string
    var icon: string

    /** The colour and the icon are always palette entries. */
    ghost predicate Valid()
      reads this
    {
      color in COLORS && icon in ICONS
    }

    /** An empty name, the first colour and the first icon. */
    constructor()
      ensures Valid()
      ensures name == "" && color == COLORS[0] && icon == ICONS[0]
    {
      name := "";
      color := COLORS[0];
      icon := ICONS[0];
    }

    /** Typing in the name field. */
    method SetName(value: string)
      requires Valid()
      modifies this
      ensures Valid()
      ensures name == value && color == old(color) && icon == old(icon)
    {
      name := value;
    }

    /** Pressing the colour button at position `i` of the palette. */
    method PickColor(i: nat)
      requires i < |COLORS|
      requires Valid()
      modifies this
      ensures Valid()
      ensures color == COLORS[i] && name == old(name) && icon == old(icon)
    {
      color := COLORS[i];
    }

    /** Pressing the icon button at position `i` of the palette. */
    method PickIcon(i: nat)
      requires i < |ICONS|
      requires Valid()
      modifies this
      ensures Valid()
      ensures icon == ICONS[i] && name == old(name) && color == old(color)
    {
      icon := ICONS[i];
    }

    /** `handleSubmit`: a name of only whitespace is refused and nothing changes;
        otherwise the current triple is handed on with the name untrimmed, and the
        form returns to its initial state. */
    method Submit() returns (added: Option<NewCategory>)
      requires Valid()
      modifies this
      ensures Valid()
      ensures added.None? <==> forall i :: 0 <= i < |old(name)| ==> IsWhitespace(old(name)[i])
      ensures added.None? ==> name == old(name) && color == old(color) && icon == old(icon)
      ensures added.Some? ==> added.value.color in COLORS && added.value.icon in ICONS
      ensures added.Some? ==>
        && added.value == NewCategory(old(name), old(color), old(icon))
        && name == "" && color == COLORS[0] && icon == ICONS[0]
    {
      BlankIffAllWhitespace(name);
      if IsBlank(name) {
        return None;
      }
      added := Some(NewCategory(name, color, icon));
      name := "";
      color := COLORS[0];
      icon := ICONS[0];
    }
  }
}
