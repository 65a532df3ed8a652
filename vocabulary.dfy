/** The vocabulary sidebar: a three-field form that builds a word entry and
    hands it to the player, then clears itself. */
module Vocabulary {

  /** The three options of the familiarity select; no other value can be
      chosen, so the field is an enumeration rather than a string. */
  datatype Familiarity = NotMastered | PartlyMastered | Mastered

  /** The option's value (and label) as the page shows it. */
  function Label(f: Familiarity): (s: string)
    ensures s in {"未掌握", "部分掌握", "已掌握"}
  {
    match f
    case NotMastered => "未掌握"
    case PartlyMastered => "部分掌握"
    case Mastered => "已掌握"
  }

  /** Reads a select value back; anything but the three labels is rejected. */
  function FromLabel(s: string): (f: Familiarity)
    requires s in {"未掌握", "部分掌握", "已掌握"}
    ensures Label(f) == s
  {
    if s == "未掌握" then NotMastered
    else if s == "部分掌握" then PartlyMastered
    else Mastered
  }

  /** Distinct options carry distinct labels, so the label identifies the
      option. */
  lemma LabelRoundTrip(f: Familiarity)
    ensures FromLabel(Label(f)) == f
  {
  }

  /** A word entry; `id` is the millisecond clock at the moment of adding. */
  datatype VocabEntry = VocabEntry(id: int, word: string, translation: string, familiarity: Familiarity)

  class VocabularySidebar {
    var newWord: string
    var translation: string
    var familiarity: Familiarity

    /** The form's resting state: both inputs empty, '未掌握' selected. */
    predicate IsReset()
      reads this
    {
      newWord == "" && translation == "" && familiarity == NotMastered
    }

    constructor ()
      ensures IsReset()
    {
      newWord := "";
      translation := "";
      familiarity := NotMastered;
    }

    method SetWord(value: string)
      modifies this
      ensures newWord == value
      ensures translation == old(translation) && familiarity == old(familiarity)
    {
      newWord := value;
    }

    method SetTranslation(value: string)
      modifies this
      ensures translation == value
      ensures newWord == old(newWord) && familiarity == old(familiarity)
    {
      translation := value;
    }

    /** The select's change handler; `value` is one of its three options. */
    method SetFamiliarity(value: string)
      requires value in {"未掌握", "部分掌握", "已掌握"}
      modifies this
      ensures Label(familiarity) == value
      ensures newWord == old(newWord) && translation == old(translation)
    {
      familiarity := FromLabel(value);
    }

    /** `handleAddWord`: with no validation (an empty word is added too) the
        entry carries the three current values and the id `now`; it is what
        `onAddWord` receives, once. The form then returns to its initial
        state. */
    method AddWord(now: int) returns (entry: VocabEntry)
      modifies this
      ensures entry == VocabEntry(now, old(newWord), old(translation), old(familiarity))
      ensures IsReset()
    {
      entry := VocabEntry(now, newWord, translation, familiarity);
      newWord := "";
      translation := "";
      familiarity := NotMastered;
    }
  }
}
