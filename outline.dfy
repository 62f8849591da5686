/**
  The nested record the Script.py and non_json.py parsers build:
  chapter number -> {title, sections: section number -> {title, subsections:
  subsection number -> {title}}}.
*/
module Outline {

  /** The word that opens a chapter heading. */
  const Marker: string := "Глава"

  datatype Subsection = Subsection(title: string)

  datatype Section = Section(title: string, subsections: map<string, Subsection>)

  datatype Chapter = Chapter(title: string, sections: map<string, Section>)

  type Structure = map<string, Chapter>

  /** `structure[c]["sections"][number] = {"title": title, "subsections": {}}`. */
  function PutSection(structure: Structure, c: string, number: string, title: string): (r: Structure)
    requires c in structure
    ensures r.Keys == structure.Keys
    ensures forall k :: k in structure && k != c ==> r[k] == structure[k]
    ensures r[c].title == structure[c].title
    ensures r[c].sections == structure[c].sections[number := Section(title, map[])]
  {
    var chapter := structure[c];
    structure[c := chapter.(sections := chapter.sections[number := Section(title, map[])])]
  }

  /** `structure[c]["sections"][s]["subsections"][number] = {"title": title}`. */
  function PutSubsection(structure: Structure, c: string, s: string, number: string, title: string): (r: Structure)
    requires c in structure && s in structure[c].sections
    ensures r.Keys == structure.Keys
    ensures forall k :: k in structure && k != c ==> r[k] == structure[k]
    ensures r[c].title == structure[c].title
    ensures r[c].sections.Keys == structure[c].sections.Keys
    ensures forall k :: k in structure[c].sections && k != s ==> r[c].sections[k] == structure[c].sections[k]
    ensures r[c].sections[s].title == structure[c].sections[s].title
    ensures r[c].sections[s].subsections == structure[c].sections[s].subsections[number := Subsection(title)]
  {
    var chapter := structure[c];
    var section := chapter.sections[s];
    structure[c := chapter.(sections := chapter.sections[s := section.(subsections := section.subsections[number := Subsection(title)])])]
  }
}
