/** The receipt service of the back end: `sanitize_html_for_pdf`, a size cap
    and a case-insensitive blacklist over an HTML string, and the guards that
    `format_sales_receipt` runs before it writes any PDF. The directory
    creation is the parameter `dirReady` (whether `os.makedirs` succeeded or
    the directory existed); everything after the path-length check is file
    output and is not modelled. */
module ComprovanteService {
  import opened Text
  import opened PyJson

  const MAX_HTML_SIZE: int := 500 * 1024
  const MIN_RECEIPT_HTML: int := 50
  const MAX_PDF_PATH: int := 260

  /** The blacklist, in the order it is scanned. */
  const DANGEROUS_PATTERNS: seq<string> := [
    "<script", "javascript:", "onerror=", "onload=", "onclick=", "onmouseover=",
    "<?php", "<%", "eval(", "<iframe", "<object", "<embed", "<svg", "<style",
    "import ", "exec(", "system("
  ]

  /** Some blacklisted pattern occurs in the lower-cased text. Every pattern
      is ASCII and none ends in `i`, so for these patterns `Lower` finds
      exactly the occurrences Python's `str.lower` would. */
  predicate HasDangerousPattern(s: string) {
    exists k :: 0 <= k < |DANGEROUS_PATTERNS| && Contains(Lower(s), DANGEROUS_PATTERNS[k])
  }

  /** `sanitize_html_for_pdf(html_string)`: `None` for a non-string, for more
      than 500 KiB of characters, or when a pattern is found; otherwise the
      input unchanged. */
  function SanitizeHtmlForPdf(html: Json): (r: Option<string>)
    ensures r.Some? <==> html.Str? && |html.s| <= MAX_HTML_SIZE && !HasDangerousPattern(html.s)
    ensures r.Some? ==> r.value == html.s
  {
    if !html.Str? then None
    else if |html.s| > MAX_HTML_SIZE then None
    else if HasDangerousPattern(html.s) then None
    else Some(html.s)
  }

  /** An accepted string is accepted again, unchanged. */
  lemma SanitizeIdempotent(html: Json)
    requires SanitizeHtmlForPdf(html).Some?
    ensures SanitizeHtmlForPdf(Str(SanitizeHtmlForPdf(html).value)) == SanitizeHtmlForPdf(html)
  {
  }

  /** An occurrence of `t` survives lower-casing as an occurrence of `Lower(t)`. */
  lemma {:induction false} LowerKeepsOccurrence(s: string, t: string)
    requires Contains(s, t)
    ensures Contains(Lower(s), Lower(t))
  {
    var i :| 0 <= i <= |s| && OccursAt(s, t, i);
    assert Lower(s)[i..i + |t|] == Lower(t) by {
      forall k | 0 <= k < |t| ensures Lower(s)[i..i + |t|][k] == Lower(t)[k] {
        assert s[i + k] == t[k];
      }
    }
    assert OccursAt(Lower(s), Lower(t), i);
  }

  /** Upper-case or mixed-case tags are caught: any spelling of `<script`
      that lower-cases to it is rejected. */
  lemma ScriptInAnyCaseRejected(s: string, t: string)
    requires Lower(t) == "<script"
    requires Contains(s, t)
    ensures SanitizeHtmlForPdf(Str(s)).None?
  {
    LowerKeepsOccurrence(s, t);
    assert DANGEROUS_PATTERNS[0] == "<script";
  }

  lemma UpperScriptRejected()
    ensures SanitizeHtmlForPdf(Str("<SCRIPT>")).None?
  {
    assert Lower("<SCRIPT") == "<script";
    assert OccursAt("<SCRIPT>", "<SCRIPT", 0);
    ScriptInAnyCaseRejected("<SCRIPT>", "<SCRIPT");
  }

  // ------------------------------------------------------------ format_sales_receipt

  /** `os.path.join(base, name)` on POSIX for a relative `name`: only `/`
      counts as a separator at the end of `base`. */
  function PathJoin(base: string, name: string): (p: string)
    ensures |p| == |base| + |name| + (if base == "" || base[|base| - 1] == '/' then 0 else 1)
    ensures IsPrefix(base, p) && p[|p| - |name|..] == name
  {
    if base == "" || base[|base| - 1] == '/' then base + name else base + "/" + name
  }

  /** How far `format_sales_receipt` gets: it returns `None` at a guard, or
      it reaches the PDF writer with the path it will write. */
  datatype ReceiptGuard = Refused | WritePdf(pdfPath: string)

  /** The guards of `format_sales_receipt(html_string, base_path)`, in order. */
  function FormatSalesReceiptGuards(html: Json, basePath: Json, dirReady: bool): (g: ReceiptGuard)
    ensures !html.Str? || |html.s| < MIN_RECEIPT_HTML ==> g == Refused
    ensures SanitizeHtmlForPdf(html).None? ==> g == Refused
    ensures !basePath.Str? ==> g == Refused
    ensures basePath.Str? && Contains(PathJoin(basePath.s, "comprovante"), "..") ==> g == Refused
    ensures !dirReady ==> g == Refused
    ensures g.WritePdf? <==> && html.Str? && |html.s| >= MIN_RECEIPT_HTML && SanitizeHtmlForPdf(html).Some?
                             && basePath.Str? && !Contains(PathJoin(basePath.s, "comprovante"), "..") && dirReady
                             && |PathJoin(PathJoin(basePath.s, "comprovante"), "comprovante.pdf")| <= MAX_PDF_PATH
    ensures g.WritePdf? ==> && basePath.Str?
                            && g.pdfPath == PathJoin(PathJoin(basePath.s, "comprovante"), "comprovante.pdf")
                            && |g.pdfPath| <= MAX_PDF_PATH
  {
    if !html.Str? || |html.s| < MIN_RECEIPT_HTML then Refused
    else
      var sanitized := SanitizeHtmlForPdf(html);
      if sanitized.None? || sanitized.value == "" then Refused
      else if !basePath.Str? then Refused
      else
        var dir := PathJoin(basePath.s, "comprovante");
        if Contains(dir, "..") then Refused
        else if !dirReady then Refused
        else
          var pdfPath := PathJoin(dir, "comprovante.pdf");
          if |pdfPath| > MAX_PDF_PATH then Refused
          else WritePdf(pdfPath)
  }

  /** Appending `/comprovante.pdf` to a directory name that does not end in
      `.` creates no `..`. */
  lemma {:induction false} AppendFileNameNoDotDot(dir: string)
    requires dir != [] && dir[|dir| - 1] != '.'
    requires !Contains(dir, "..")
    ensures !Contains(dir + "/comprovante.pdf", "..")
  {
    var p := dir + "/comprovante.pdf";
    var name := "/comprovante.pdf";
    forall i | 0 <= i <= |p| ensures !OccursAt(p, "..", i) {
      if i + 2 <= |dir| {
        assert p[i..i + 2] == dir[i..i + 2];
        assert !OccursAt(dir, "..", i);
      } else if i + 1 == |dir| {
        assert p[i + 1] == '/';
      } else if i + 2 <= |p| {
        var j := i - |dir|;
        assert p[i] == name[j] && p[i + 1] == name[j + 1];
        assert name[j] != '.' || name[j + 1] != '.';
      }
    }
  }

  /** The path the PDF is written to never contains `..`. */
  lemma PdfPathHasNoDotDot(html: Json, basePath: Json, dirReady: bool)
    requires FormatSalesReceiptGuards(html, basePath, dirReady).WritePdf?
    ensures !Contains(FormatSalesReceiptGuards(html, basePath, dirReady).pdfPath, "..")
  {
    PdfPathOfDirectory(basePath.s);
  }

  lemma PdfPathOfDirectory(base: string)
    requires !Contains(PathJoin(base, "comprovante"), "..")
    ensures !Contains(PathJoin(PathJoin(base, "comprovante"), "comprovante.pdf"), "..")
  {
    var dir := PathJoin(base, "comprovante");
    assert dir[|dir| - 1] == "comprovante"[10];
    assert PathJoin(dir, "comprovante.pdf") == dir + "/comprovante.pdf";
    AppendFileNameNoDotDot(dir);
  }
}
