/** The thumbnail generators of server.js:31-189. Each writes PNG files
    into `uploads/thumbnails/` and returns the file name to use, or null.
    Rasterising, resizing and SVG rendering happen in foreign libraries
    (pdf2pic, sharp); only whether each of those steps succeeded is an
    input here. */
module Thumbnails {
  import opened Common
  import opened Text
  import opened NodePath
  import opened Storage

  /** The generic icon `<name>.png` (server.js:124, 179). */
  function IconFile(name: string): string { name + ".png" }

  /** The page image pdf2pic saves for page 1 under `saveFilename: name`. */
  function RasterFile(name: string): string { name + ".1.png" }

  /** The resized page image (server.js:58). */
  function OptimizedFile(name: string): string { name + "-optimized.png" }

  const OfficeExtensions: set<string> := {".doc", ".docx", ".xls", ".xlsx", ".ppt", ".pptx"}

  /** The extensions the upload and regeneration endpoints make thumbnails for. */
  predicate Supported(ext: string) {
    ext == ".pdf" || ext in OfficeExtensions
  }

  /** What pdf2pic's conversion of page 1 did: threw, returned no page, or
      saved the page. */
  datatype Raster = RasterThrows | RasterEmpty | RasterPage

  /** The outcomes of the foreign steps of one PDF thumbnail run, in the
      order they happen: the first generic icon render, the rasterisation,
      the sharp resize of the page, and the generic icon render retried by
      the outer catch. */
  datatype PdfOracle = PdfOracle(firstIcon: bool, raster: Raster, optimizeOk: bool, secondIcon: bool)

  /** Outcomes for whichever generator a request runs. */
  datatype ThumbOracle = ThumbOracle(pdf: PdfOracle, officeRenderOk: bool)

  /** The name `generateThumbnailFromPDF` returns. It never throws: the
      resized page when rasterisation produced one and the resize worked,
      the generic icon otherwise, and null only when both icon renders fail. */
  function PdfThumbnailName(name: string, o: PdfOracle): (r: Option<string>)
    ensures r.None? <==> !o.firstIcon && !o.secondIcon
    ensures r == Some(OptimizedFile(name)) <==> o.firstIcon && o.raster == RasterPage && o.optimizeOk
    ensures r.Some? ==> r.value == IconFile(name) || r.value == OptimizedFile(name)
  {
    assert |IconFile(name)| != |OptimizedFile(name)|;
    if !o.firstIcon then
      if o.secondIcon then Some(IconFile(name)) else None
    else if o.raster == RasterPage && o.optimizeOk then Some(OptimizedFile(name))
    else Some(IconFile(name))
  }

  /** The thumbnail directory after `generateThumbnailFromPDF`. Whenever a
      name is returned that file is on disk, and so is the generic icon
      (the icon is written first and never removed, even when the resized
      page is what gets returned); nothing but the page image pdf2pic
      wrote is ever removed. */
  function PdfThumbnailFiles(thumbs: set<string>, name: string, o: PdfOracle): (r: set<string>)
    ensures PdfThumbnailName(name, o).Some? ==> PdfThumbnailName(name, o).value in r
    ensures PdfThumbnailName(name, o).Some? ==> IconFile(name) in r
    ensures thumbs - {RasterFile(name)} <= r
    ensures r <= thumbs + {IconFile(name), RasterFile(name), OptimizedFile(name)}
    ensures o.firstIcon && o.raster == RasterPage && !o.optimizeOk ==> RasterFile(name) in r
  {
    assert |RasterFile(name)| != |OptimizedFile(name)| && |RasterFile(name)| != |IconFile(name)|;
    if !o.firstIcon then
      if o.secondIcon then thumbs + {IconFile(name)} else thumbs
    else if o.raster == RasterPage then
      if o.optimizeOk then thumbs + {IconFile(name), OptimizedFile(name)} - {RasterFile(name)}
      else thumbs + {IconFile(name), RasterFile(name)}
    else thumbs + {IconFile(name)}
  }

  /** `generateGenericPDFThumbnail` (server.js:96-135): renders the icon to
      `<name>.png`; `None` stands for the exception it rethrows. */
  method GenericPdfThumbnail(disk: Disk, name: string, renderOk: bool) returns (r: Option<string>, disk': Disk)
    ensures renderOk ==> r == Some(IconFile(name)) && disk' == disk.(thumbnails := disk.thumbnails + {IconFile(name)})
    ensures !renderOk ==> r.None? && disk' == disk
  {
    disk' := disk;
    if renderOk {
      disk' := disk'.(thumbnails := disk'.thumbnails + {IconFile(name)});
      r := Some(IconFile(name));
    } else {
      r := None;
    }
  }

  /** `generateThumbnailFromPDF` (server.js:32-93). */
  method PdfThumbnail(disk: Disk, name: string, o: PdfOracle) returns (thumb: Option<string>, disk': Disk)
    ensures thumb == PdfThumbnailName(name, o)
    ensures disk' == disk.(thumbnails := PdfThumbnailFiles(disk.thumbnails, name, o))
  {
    var fallback;
    fallback, disk' := GenericPdfThumbnail(disk, name, o.firstIcon);
    if fallback.None? {
      // the outer catch tries the generic icon once more
      thumb, disk' := GenericPdfThumbnail(disk', name, o.secondIcon);
      return;
    }
    match o.raster {
      case RasterThrows =>
        thumb := fallback;
      case RasterEmpty =>
        thumb := fallback;
      case RasterPage =>
        var page := RasterFile(name);
        disk' := disk'.(thumbnails := disk'.thumbnails + {page});
        if !o.optimizeOk {
          // sharp threw inside the inner try: the page image stays behind
          thumb := fallback;
        } else {
          var optimized := OptimizedFile(name);
          disk' := disk'.(thumbnails := disk'.thumbnails + {optimized});
          if page in disk'.thumbnails {
            disk' := disk'.(thumbnails := disk'.thumbnails - {page});
          }
          thumb := Some(optimized);
        }
    }
  }

  datatype Icon = Icon(color: string, caption: string)

  /** The colour and label `generateThumbnailFromOffice` draws for a
      lower-cased extension (server.js:145-165). */
  function OfficeIcon(ext: string): (icon: Icon)
    ensures icon.caption == "XLS" <==> ext == ".xls" || ext == ".xlsx"
    ensures icon.caption == "PPT" <==> ext == ".ppt" || ext == ".pptx"
    ensures icon.caption == "DOC" <==> !(ext in {".xls", ".xlsx", ".ppt", ".pptx"})
    ensures icon.color == "#2B579A" <==> ext == ".doc" || ext == ".docx"
    ensures icon.color == "#217346" <==> icon.caption == "XLS"
    ensures icon.color == "#D24726" <==> icon.caption == "PPT"
    ensures icon.color == "#4285F4" <==> ext !in OfficeExtensions
  {
    match ext
    case ".docx" => Icon("#2B579A", "DOC")
    case ".doc" => Icon("#2B579A", "DOC")
    case ".xlsx" => Icon("#217346", "XLS")
    case ".xls" => Icon("#217346", "XLS")
    case ".pptx" => Icon("#D24726", "PPT")
    case ".ppt" => Icon("#D24726", "PPT")
    case _ => Icon("#4285F4", "DOC")
  }

  /** `generateThumbnailFromOffice` (server.js:138-189): never throws; a
      failed render yields null. `icon` is what the SVG was drawn with. */
  method OfficeThumbnail(disk: Disk, filePath: string, name: string, renderOk: bool)
    returns (thumb: Option<string>, icon: Icon, disk': Disk)
    ensures icon == OfficeIcon(Lower(Extname(filePath)))
    ensures renderOk ==> thumb == Some(IconFile(name)) && disk' == disk.(thumbnails := disk.thumbnails + {IconFile(name)})
    ensures !renderOk ==> thumb.None? && disk' == disk
  {
    var fileExt := Lower(Extname(filePath));
    icon := OfficeIcon(fileExt);
    disk' := disk;
    if renderOk {
      disk' := disk'.(thumbnails := disk'.thumbnails + {IconFile(name)});
      thumb := Some(IconFile(name));
    } else {
      thumb := None;
    }
  }

  /** The thumbnail name the endpoints obtain for a file whose lower-cased
      extension is `ext`: only ".pdf" and the six Office extensions get one. */
  function ThumbnailName(ext: string, name: string, o: ThumbOracle): (r: Option<string>)
    ensures r.Some? ==> Supported(ext)
    ensures r.Some? ==> r.value == IconFile(name) || (ext == ".pdf" && r.value == OptimizedFile(name))
    ensures ext in OfficeExtensions ==> (r.Some? <==> o.officeRenderOk)
    ensures ext == ".pdf" ==> (r.None? <==> !o.pdf.firstIcon && !o.pdf.secondIcon)
  {
    if ext == ".pdf" then PdfThumbnailName(name, o.pdf)
    else if ext in OfficeExtensions then (if o.officeRenderOk then Some(IconFile(name)) else None)
    else None
  }

  /** The thumbnail directory after that dispatch. */
  function ThumbnailFiles(thumbs: set<string>, ext: string, name: string, o: ThumbOracle): (r: set<string>)
    ensures ThumbnailName(ext, name, o).Some? ==> ThumbnailName(ext, name, o).value in r
    ensures thumbs - {RasterFile(name)} <= r
    ensures !Supported(ext) ==> r == thumbs
  {
    if ext == ".pdf" then PdfThumbnailFiles(thumbs, name, o.pdf)
    else if ext in OfficeExtensions then (if o.officeRenderOk then thumbs + {IconFile(name)} else thumbs)
    else thumbs
  }

  /** The dispatch each endpoint inlines (server.js:665-671, 743-749,
      856-867 without its unsupported branch): `ext` is the lower-cased
      extension of `filename`, the file in `uploads/`. */
  method MakeThumbnail(disk: Disk, filename: string, ext: string, name: string, o: ThumbOracle)
    returns (thumb: Option<string>, disk': Disk)
    requires ext == Lower(Extname(filename))
    ensures thumb == ThumbnailName(ext, name, o)
    ensures disk' == disk.(thumbnails := ThumbnailFiles(disk.thumbnails, ext, name, o))
  {
    if ext == ".pdf" {
      thumb, disk' := PdfThumbnail(disk, name, o.pdf);
    } else if ext in OfficeExtensions {
      var icon;
      thumb, icon, disk' := OfficeThumbnail(disk, filename, name, o.officeRenderOk);
    } else {
      thumb, disk' := None, disk;
    }
  }
}
