/**
 * The member type setting object: a fixed default name, and an effective name
 * and an order that the settings user interface changes in place; with the
 * two explicit conversions to and from the persisted text form.
 */
module MemberTypeSettings {
  import opened Wrappers
  import opened Text
  import opened Format

  class MemberTypeSetting {
    /** Read-only after construction. */
    const defaultName: string
    var effectiveName: string
    var order: int32

    /** Stores the three arguments as given, with no validation. */
    constructor (defaultName: string, effectiveName: string, order: int32)
      ensures this.defaultName == defaultName
      ensures this.effectiveName == effectiveName
      ensures this.order == order
    {
      this.defaultName := defaultName;
      this.effectiveName := effectiveName;
      this.order := order;
    }

    /** The values this object currently holds. */
    function Values(): Fields
      reads this
    {
      Fields(defaultName, order, effectiveName)
    }

    /** The `EffectiveName` setter: changes that field and nothing else. */
    method SetEffectiveName(value: string)
      modifies this`effectiveName
      ensures effectiveName == value
      ensures order == old(order)
    {
      effectiveName := value;
    }

    /** The `Order` setter: changes that field and nothing else. */
    method SetOrder(value: int32)
      modifies this`order
      ensures order == value
      ensures effectiveName == old(effectiveName)
    {
      order := value;
    }

    /**
     * The conversion to text, from the values current at the call. It parses
     * back to those values when the default name is a word run, the order is
     * not negative and the effective name has no line feed; with a negative
     * order and no '|' in the default name it never parses.
     */
    function ToText(): (r: string)
      reads this
      ensures r == Serialize(Values())
      ensures IsWordRun(defaultName) && order >= 0 && '\n' !in effectiveName ==> Parse(r) == Some(Values())
      ensures '|' !in defaultName && order < 0 ==> Parse(r) == None
    {
      SerializeThenParse(Values());
      Serialize(Values())
    }

    /**
     * The conversion from text. `None` stands for a null reference, which the
     * matcher rejects; every failure yields null. On success the new object
     * holds exactly the values `Parse` finds.
     */
    static method FromText(text: Option<string>) returns (m: MemberTypeSetting?)
      ensures text.None? ==> m == null
      ensures text.Some? ==> (m == null <==> Parse(text.value).None?)
      ensures m != null ==> fresh(m) && text.Some? && Parse(text.value) == Some(m.Values())
    {
      if text.None? {
        return null;
      }
      match Parse(text.value)
      case None =>
        m := null;
      case Some(f) =>
        m := new MemberTypeSetting(f.defaultName, f.effectiveName, f.order);
    }
  }

  /** A setting that is read back from its own text holds the same values and an independent object. */
  method Reload(s: MemberTypeSetting) returns (copy: MemberTypeSetting?)
    requires IsWordRun(s.defaultName) && s.order >= 0 && '\n' !in s.effectiveName
    ensures copy != null && fresh(copy) && copy.Values() == s.Values()
  {
    copy := MemberTypeSetting.FromText(Some(s.ToText()));
  }
}
