/** `BlogController`: publishing a blog post with its PDF and an optional
    author photo. The uploads are written under the web root and the post keeps
    their public paths. File contents are opaque bytes; the file system is a map
    from full path to contents. */
module Blog {
  import opened Wrappers
  import opened Text
  import opened Guids
  import opened Calendar
  import opened Mvc
  import opened BlogPostModel
  import opened Data

  // ---------------------------------------------------------------------------
  // System.IO.Path

  /** `Path.IsDirectorySeparator`: '/' everywhere, and also '\' on Windows. */
  predicate IsSeparator(c: char, windows: bool) {
    c == '/' || (windows && c == '\\')
  }

  /** `Path.DirectorySeparatorChar`. */
  function Separator(windows: bool): (c: char)
    ensures IsSeparator(c, windows)
  {
    if windows then '\\' else '/'
  }

  predicate IsAsciiLetter(c: char) {
    'a' <= c <= 'z' || 'A' <= c <= 'Z'
  }

  /** `Path.IsPathRooted`: a leading separator, or on Windows a drive letter
      and colon. */
  predicate IsPathRooted(p: string, windows: bool) {
    || (|p| > 0 && IsSeparator(p[0], windows))
    || (windows && |p| >= 2 && IsAsciiLetter(p[0]) && p[1] == ':')
  }

  /** `Path.Combine(path1, path2)`: `path2` alone when it is rooted or `path1`
      is empty, otherwise the two joined by one separator unless one of them
      already supplies it. */
  function Combine(path1: string, path2: string, windows: bool): (p: string)
    ensures path2 == [] ==> p == path1
    ensures path2 != [] && (path1 == [] || IsPathRooted(path2, windows)) ==> p == path2
  {
    if path2 == [] then path1
    else if path1 == [] || IsPathRooted(path2, windows) then path2
    else if IsSeparator(path1[|path1| - 1], windows) || IsSeparator(path2[0], windows) then path1 + path2
    else path1 + [Separator(windows)] + path2
  }

  /** The backward scan of `Path.GetExtension` from index `i`: the suffix
      starting at the first '.' met, empty when a separator or the start comes
      first or the '.' is the last character. */
  function ExtensionScan(path: string, i: int, windows: bool): string
    requires -1 <= i < |path|
    decreases i + 1
  {
    if i < 0 then []
    else if path[i] == '.' then (if i != |path| - 1 then path[i..] else [])
    else if IsSeparator(path[i], windows) then []
    else ExtensionScan(path, i - 1, windows)
  }

  /** `Path.GetExtension(path)`. */
  function GetExtension(path: string, windows: bool): string {
    ExtensionScan(path, |path| - 1, windows)
  }

  /** `ext` is a '.' and at least one more character at the end of `path`,
      with no further '.' and no separator. */
  predicate IsExtensionOf(ext: string, path: string, windows: bool) {
    && 2 <= |ext| <= |path| && ext[0] == '.' && path[|path| - |ext|..] == ext
    && forall k :: 1 <= k < |ext| ==> ext[k] != '.' && !IsSeparator(ext[k], windows)
  }

  /** What the scan finds is empty or an extension of the path. */
  lemma {:induction false} ExtensionScanShape(path: string, i: int, windows: bool)
    requires -1 <= i < |path|
    requires forall k :: i < k < |path| ==> path[k] != '.' && !IsSeparator(path[k], windows)
    ensures var ext := ExtensionScan(path, i, windows);
      ext == [] || IsExtensionOf(ext, path, windows)
    decreases i + 1
  {
    if i >= 0 && path[i] != '.' && !IsSeparator(path[i], windows) {
      ExtensionScanShape(path, i - 1, windows);
    } else if i >= 0 && path[i] == '.' && i != |path| - 1 {
      var ext := path[i..];
      forall k | 1 <= k < |ext| ensures ext[k] != '.' && !IsSeparator(ext[k], windows) {
        assert ext[k] == path[i + k];
      }
    }
  }

  /** `GetExtension` is empty or a final ".xyz" of the file name. */
  lemma ExtensionShape(fileName: string, windows: bool)
    ensures var ext := GetExtension(fileName, windows);
      ext == [] || IsExtensionOf(ext, fileName, windows)
  {
    ExtensionScanShape(fileName, |fileName| - 1, windows);
  }

  // ---------------------------------------------------------------------------
  // Upload paths

  /** An uploaded file: the name the browser gave it and its bytes. */
  datatype Upload = Upload(fileName: string, content: seq<bv8>)

  const UploadFolder: string := "uploads/blogs"

  /** The default author photo. */
  const DefaultAvatar: string := "https://i.pravatar.cc/300"

  /** `Path.Combine("uploads/blogs", Guid.NewGuid() + Path.GetExtension(name))`. */
  function RelativePath(g: Guid, fileName: string, windows: bool): string {
    Combine(UploadFolder, ToText(g) + GetExtension(fileName, windows), windows)
  }

  /** `"/" + path.Replace("\\", "/")`: the path as the site serves it. */
  function PublicPath(relative: string): (p: string)
    ensures |p| > 0 && p[0] == '/'
    ensures '\\' !in p
  {
    "/" + ReplaceChar(relative, '\\', '/')
  }

  /** The identifier's text never makes the file name a rooted path, so the
      upload folder and the file name are joined by the platform separator. */
  lemma RelativePathJoins(g: Guid, fileName: string, windows: bool)
    ensures RelativePath(g, fileName, windows) ==
      UploadFolder + [Separator(windows)] + ToText(g) + GetExtension(fileName, windows)
  {
    var name := ToText(g) + GetExtension(fileName, windows);
    assert name[0] == ToText(g)[0] && name[1] == ToText(g)[1];
    assert IsHexDigit(name[0]) && IsHexDigit(name[1]);
  }

  /** The public path of a file named `id + ext` in the upload folder, where
      `id` has no '\': only the extension's '\' are turned into '/'. */
  lemma PublicPathOfName(id: string, ext: string, windows: bool)
    requires '\\' !in id
    ensures PublicPath(UploadFolder + [Separator(windows)] + id + ext) == "/" + UploadFolder + "/" + id + ReplaceChar(ext, '\\', '/')
  {
    FolderHasNoBackslash();
    ReplaceInJoin(UploadFolder, Separator(windows), id, ext, '\\', '/');
  }

  lemma FolderHasNoBackslash()
    ensures '\\' !in UploadFolder
  {
    forall i | 0 <= i < |UploadFolder| ensures UploadFolder[i] != '\\' {
      assert UploadFolder[i] in "abdgloprsu/";
    }
  }

  /** The public path of an upload is "/", the upload folder, "/", the identifier, and
      the extension with any '\' turned into '/', whatever the platform; on
      Windows the extension is kept as it is. */
  lemma PublicPathOfUpload(g: Guid, fileName: string, windows: bool)
    ensures var ext := GetExtension(fileName, windows);
      && PublicPath(RelativePath(g, fileName, windows)) == "/" + UploadFolder + "/" + ToText(g) + ReplaceChar(ext, '\\', '/')
      && (windows ==> PublicPath(RelativePath(g, fileName, windows)) == "/" + UploadFolder + "/" + ToText(g) + ext)
  {
    var ext := GetExtension(fileName, windows);
    var id := ToText(g);
    RelativePathJoins(g, fileName, windows);
    assert '\\' !in id by {
      forall i | 0 <= i < |id| ensures id[i] != '\\' {
        assert IsHexDigit(id[i]) || id[i] == '-';
      }
    }
    PublicPathOfName(id, ext, windows);
    if windows {
      ExtensionShape(fileName, windows);
      assert '\\' !in ext by {
        forall k | 0 <= k < |ext| ensures ext[k] != '\\' {
          if k > 0 {
            assert !IsSeparator(ext[k], windows);
          }
        }
      }
      ReplaceAbsentChar(ext, '\\', '/');
    }
  }

  /** The author photo path: the uploaded photo's public path, or the
      default avatar when no photo was sent. */
  function PhotoPath(photo: Option<Upload>, photoId: Guid, windows: bool): (p: string)
    ensures photo.None? <==> p == DefaultAvatar
  {
    if photo.Some? then PublicPath(RelativePath(photoId, photo.value.fileName, windows)) else DefaultAvatar
  }

  /** The post as stored: the bound fields as submitted, with both paths set. */
  function Published(model: BlogPost, pdf: Upload, photo: Option<Upload>, pdfId: Guid, photoId: Guid, windows: bool): BlogPost {
    model.(pdfFilePath := Some(PublicPath(RelativePath(pdfId, pdf.fileName, windows))),
           profilePhotoPath := Some(PhotoPath(photo, photoId, windows)))
  }

  /** The stored post differs from the submitted one only in its two paths; its
      PDF path starts with "/" and has no '\'; its photo path is the avatar
      exactly when no photo was sent. */
  lemma PublishedPost(model: BlogPost, pdf: Upload, photo: Option<Upload>, pdfId: Guid, photoId: Guid, windows: bool)
    ensures var post := Published(model, pdf, photo, pdfId, photoId, windows);
      && post.(pdfFilePath := model.pdfFilePath, profilePhotoPath := model.profilePhotoPath) == model
      && post.pdfFilePath.Some? && post.pdfFilePath.value[0] == '/' && '\\' !in post.pdfFilePath.value
      && post.profilePhotoPath.Some?
      && (post.profilePhotoPath.value == DefaultAvatar <==> photo.None?)
      && (photo.Some? ==> post.profilePhotoPath.value[0] == '/' && '\\' !in post.profilePhotoPath.value)
  {
  }

  /** The files after the uploads are saved: the PDF, then the photo if any,
      each at the web root joined with its relative path, created or
      overwritten. */
  function Saved(files: map<string, seq<bv8>>, webRoot: string, pdf: Upload, photo: Option<Upload>,
                 pdfId: Guid, photoId: Guid, windows: bool): (r: map<string, seq<bv8>>)
    ensures var pdfKey := Combine(webRoot, RelativePath(pdfId, pdf.fileName, windows), windows);
      pdfKey in r && (photo.None? || Combine(webRoot, RelativePath(photoId, photo.value.fileName, windows), windows) != pdfKey ==> r[pdfKey] == pdf.content)
    ensures photo.Some? ==>
      var photoKey := Combine(webRoot, RelativePath(photoId, photo.value.fileName, windows), windows);
      photoKey in r && r[photoKey] == photo.value.content
    ensures forall k ::
      (&& k != Combine(webRoot, RelativePath(pdfId, pdf.fileName, windows), windows)
       && (photo.None? || k != Combine(webRoot, RelativePath(photoId, photo.value.fileName, windows), windows)))
      ==> (k in r <==> k in files) && (k in files ==> r[k] == files[k])
  {
    var withPdf := files[Combine(webRoot, RelativePath(pdfId, pdf.fileName, windows), windows) := pdf.content];
    if photo.Some? then withPdf[Combine(webRoot, RelativePath(photoId, photo.value.fileName, windows), windows) := photo.value.content]
    else withPdf
  }

  const FormErrorMessage: string := "Please fill all required fields and upload a PDF."

  /** The web root's files. */
  class FileStore {
    var files: map<string, seq<bv8>>

    constructor (files: map<string, seq<bv8>>)
      ensures this.files == files
    {
      this.files := files;
    }
  }

  class BlogController {
    const db: AppDb
    const store: FileStore
    const webRoot: string     // `IWebHostEnvironment.WebRootPath`
    const windows: bool       // the platform's path conventions

    constructor (db: AppDb, store: FileStore, webRoot: string, windows: bool)
      ensures this.db == db && this.store == store && this.webRoot == webRoot && this.windows == windows
    {
      this.db := db;
      this.store := store;
      this.webRoot := webRoot;
      this.windows := windows;
    }

    /** POST Create. `modelStateValid` is MVC's verdict on the bound form,
        `pdf` and `photo` the uploaded files, `pdfId` and `photoId` the two
        `Guid.NewGuid()` values. Without a valid form and a PDF nothing is
        written or stored and the form comes back with an error. */
    method Create(model: BlogPost, modelStateValid: bool, pdf: Option<Upload>, photo: Option<Upload>,
                  pdfId: Guid, photoId: Guid)
      returns (r: ActionResult, formError: Option<string>)
      modifies db`blogPosts, store`files
      ensures !modelStateValid || pdf.None? ==>
        && r == View && formError == Some(FormErrorMessage)
        && db.blogPosts == old(db.blogPosts) && store.files == old(store.files)
      ensures modelStateValid && pdf.Some? ==>
        && r == RedirectToAction("Index", Some("Event")) && formError.None?
        && db.blogPosts == old(db.blogPosts) + [Published(model, pdf.value, photo, pdfId, photoId, windows)]
        && store.files == Saved(old(store.files), webRoot, pdf.value, photo, pdfId, photoId, windows)
    {
      if !modelStateValid || pdf.None? {
        return View, Some(FormErrorMessage);
      }
      var post := model;
      var pdfPath := Combine(UploadFolder, ToText(pdfId) + GetExtension(pdf.value.fileName, windows), windows);
      store.files := store.files[Combine(webRoot, pdfPath, windows) := pdf.value.content];
      post := post.(pdfFilePath := Some("/" + ReplaceChar(pdfPath, '\\', '/')));
      if photo.Some? {
        var photoPath := Combine(UploadFolder, ToText(photoId) + GetExtension(photo.value.fileName, windows), windows);
        store.files := store.files[Combine(webRoot, photoPath, windows) := photo.value.content];
        post := post.(profilePhotoPath := Some("/" + ReplaceChar(photoPath, '\\', '/')));
      } else {
        post := post.(profilePhotoPath := Some(DefaultAvatar));
      }
      db.blogPosts := db.blogPosts + [post];
      r, formError := RedirectToAction("Index", Some("Event")), None;
    }
  }
}
