/**
 * The html/css consistency step of backend/check_site.py. The walk of the templates
 * directory and the html class extraction are inputs: each template is its file name
 * and the set of classes its tags carry (an unreadable file contributes the empty set,
 * as the extractor returns). The stylesheet is its text, or None when it is missing.
 */
module CheckSite {
  import opened Wrappers
  import opened Text
  import opened CssClasses

  datatype Template = Template(name: string, classes: set<string>)

  /** Classes a template uses that the stylesheet does not define. */
  function Missing(html: set<string>, css: set<string>): (m: set<string>)
    ensures m <= html && m !! css
    ensures forall c :: c in m <==> c in html && c !in css
  {
    html - css
  }

  /** Only files whose names end in ".html" are checked. */
  predicate Checked(t: Template) {
    IsSuffix(".html", t.name)
  }

  /** A template raises a warning when it is checked and some class of it is missing. */
  predicate Flagged(t: Template, css: set<string>) {
    Checked(t) && Missing(t.classes, css) != {}
  }

  /** check_html_css_consistency: None when the stylesheet is missing, else whether no
      checked template has a missing class. */
  method CheckConsistency(templates: seq<Template>, stylesheet: Option<string>) returns (r: Option<bool>)
    ensures stylesheet.None? ==> r.None?
    ensures stylesheet.Some? ==>
      r == Some(forall i :: 0 <= i < |templates| ==> !Flagged(templates[i], Classes(stylesheet.value)))
  {
    if stylesheet.None? {
      return None;
    }
    var css := Classes(stylesheet.value);
    var problems := false;
    var i := 0;
    while i < |templates|
      invariant 0 <= i <= |templates|
      invariant problems <==> exists k :: 0 <= k < i && Flagged(templates[k], css)
    {
      if IsSuffix(".html", templates[i].name) {
        var missing := templates[i].classes - css;
        if missing != {} {
          problems := true;
        }
      }
      i := i + 1;
    }
    r := Some(!problems);
  }

  /** "index.html" with an undefined class is flagged; "notes.txt" with the same class is not. */
  lemma CheckExamples()
    ensures Flagged(Template("index.html", {"hero"}), {})
    ensures !Flagged(Template("notes.txt", {"hero"}), {})
    ensures !Flagged(Template("index.html", {"hero"}), {"hero"})
  {
    assert "index.html"[|"index.html"| - |".html"|..] == ".html";
    assert "hero" in Missing({"hero"}, {});
  }
}
