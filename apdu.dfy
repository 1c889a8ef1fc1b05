/**
 * The APDU inspector: a fixed glossary of the five fields of a smart-card
 * command/response, and the info box that hovering a field fills in and
 * leaving it resets.
 */
module Apdu {

  /** One glossary entry: a title, a description and the accent border class of the box. */
  datatype Entry = Entry(title: string, desc: string, accent: string)

  /** The glossary, keyed by field tag. */
  const ApduInfo: map<string, Entry> := map[
    "CLA" := Entry("Class Byte", "Define la clase de instrucción. (0x00 Estándar, 0x80 Propietario).", "border-cyan-500"),
    "INS" := Entry("Instruction Byte", "Código de la operación. (Ej: 0xA4 = SELECT FILE).", "border-cyan-500"),
    "P1P2" := Entry("Parameters", "Parámetros de la instrucción (ej. offset de memoria).", "border-cyan-500"),
    "Data" := Entry("Payload / Data", "Información real (NDEF, claves, etc). Variable longitud (Lc).", "border-slate-400"),
    "SW" := Entry("Status Word", "Estado final. 0x9000 = OK. Cualquier otra cosa = Error.", "border-green-500")
  ]

  /** The classes every filled-in box carries, before its accent. */
  const BoxBase := "bg-slate-800 p-4 border-l-4 min-h-[100px] rounded-r transition-colors "

  /** What the box shows when no field is hovered. */
  const DefaultTitle := "Estructura APDU"
  const DefaultDesc := "Pasa el ratón por los bloques de arriba para ver su función."
  const DefaultBoxClass := "bg-slate-800 p-4 border-l-4 border-slate-500 min-h-[100px] rounded-r transition-colors"

  /** The three things the inspector writes: the title text, the description text and the box's classes. */
  datatype InfoBox = InfoBox(title: string, desc: string, boxClass: string)

  const DefaultBox := InfoBox(DefaultTitle, DefaultDesc, DefaultBoxClass)

  /** The class list of a filled-in box: the fixed base with the accent appended. */
  function BoxClass(accent: string): string
  {
    BoxBase + accent
  }

  /** The box showing glossary entry `e`. */
  function Show(e: Entry): InfoBox
  {
    InfoBox(e.title, e.desc, BoxClass(e.accent))
  }

  /**
   * The names a plain object inherits from `Object.prototype`. Looking one of
   * them up in the glossary finds a function (or, for `__proto__`, the
   * prototype object) rather than an entry, and reading its fields gives
   * `undefined`.
   */
  const InheritedNames: set<string> := {
    "constructor", "__proto__", "hasOwnProperty", "isPrototypeOf", "propertyIsEnumerable",
    "toString", "toLocaleString", "valueOf",
    "__defineGetter__", "__defineSetter__", "__lookupGetter__", "__lookupSetter__"
  }

  /** The text `undefined` becomes when written into the page. */
  const Undefined := "undefined"

  /** The box after hovering with an inherited name: every part reads "undefined". */
  const UndefinedBox := InfoBox(Undefined, Undefined, BoxClass(Undefined))

  /** The tags the glossary knows: exactly the five APDU fields, each at most four characters long. */
  lemma Tags()
    ensures ApduInfo.Keys == {"CLA", "INS", "P1P2", "Data", "SW"}
    ensures forall k | k in ApduInfo :: |k| <= 4
  {
  }

  /** The three command-header fields share the cyan accent; the payload and the status word have their own. */
  lemma Accents()
    ensures ApduInfo["CLA"].accent == ApduInfo["INS"].accent == ApduInfo["P1P2"].accent == "border-cyan-500"
    ensures ApduInfo["Data"].accent == "border-slate-400" && ApduInfo["SW"].accent == "border-green-500"
  {
  }

  /** Every inherited name is at least seven characters long. */
  lemma InheritedNamesLong(key: string)
    requires key in InheritedNames
    ensures |key| >= 7
  {
  }

  /** No glossary tag is an inherited name, so the two kinds of lookup never meet. */
  lemma TagsNotInherited(key: string)
    ensures key in ApduInfo ==> key !in InheritedNames
  {
    if key in ApduInfo && key in InheritedNames {
      Tags();
      InheritedNamesLong(key);
    }
  }

  /** Different fields fill in different boxes, and none of them looks like the reset box or the "undefined" box. */
  lemma ShownIdentifiesTag(k1: string, k2: string)
    requires k1 in ApduInfo && k2 in ApduInfo
    ensures Show(ApduInfo[k1]) != DefaultBox && Show(ApduInfo[k1]) != UndefinedBox
    ensures Show(ApduInfo[k1]) == Show(ApduInfo[k2]) ==> k1 == k2
  {
    assert |DefaultTitle| == 15 && |Undefined| == 9;
    assert forall k | k in ApduInfo :: |ApduInfo[k].title| == if k == "CLA" then 10 else if k == "INS" then 16
      else if k == "P1P2" then 10 else if k == "Data" then 14 else 11;
    assert |ApduInfo["CLA"].title| == |ApduInfo["P1P2"].title|;
    assert ApduInfo["CLA"].title[0] != ApduInfo["P1P2"].title[0];
  }

  /** The outcome of a hover handler: done, or the script error a name the glossary lacks raises. */
  datatype Outcome = Done | TypeError

  /** The info box of the inspector, whose three parts the handlers overwrite. */
  class ApduPanel {
    var title: string
    var desc: string
    var boxClass: string

    /** What the box currently shows. */
    function View(): InfoBox
      reads this
    {
      InfoBox(title, desc, boxClass)
    }

    /** The box as the markup first shows it. */
    constructor (initial: InfoBox)
      ensures View() == initial
    {
      title, desc, boxClass := initial.title, initial.desc, initial.boxClass;
    }

    /**
     * Hovering field `key`: the box shows that entry. An inherited name finds
     * no entry fields, so every part of the box reads "undefined". Any other
     * name finds nothing at all and fails on reading its title, before
     * anything is written.
     */
    method SetInfo(key: string) returns (r: Outcome)
      modifies this
      ensures r == Done <==> key in ApduInfo || key in InheritedNames
      ensures key in ApduInfo ==> View() == Show(ApduInfo[key])
      ensures key in InheritedNames ==> View() == UndefinedBox
      ensures r == TypeError ==> View() == old(View())
    {
      TagsNotInherited(key);
      if key in ApduInfo {
        var data := ApduInfo[key];
        title := data.title;
        desc := data.desc;
        boxClass := BoxClass(data.accent);
        return Done;
      } else if key in InheritedNames {
        title := Undefined;
        desc := Undefined;
        boxClass := BoxClass(Undefined);
        return Done;
      }
      return TypeError;
    }

    /** Leaving a field: the box goes back to its fixed message, whatever it showed. */
    method ClearInfo()
      modifies this
      ensures View() == DefaultBox
    {
      title := DefaultTitle;
      desc := DefaultDesc;
      boxClass := DefaultBoxClass;
    }
  }
}
