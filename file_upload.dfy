/**
 * `FileUploadService` (api/core/file_upload.py): image uploads are checked for type and
 * size, stored under `{upload_dir}/{category}/{category}_{id}_{hex}.{ext}` and addressed by
 * the URL `/uploads/{category}/{name}`; `delete_file` maps such a URL back to its path.
 *
 * The files on disk are modelled as the set of their paths.
 */
module FileUpload {
  import opened Results
  import opened PyStrings

  /** `ALLOWED_IMAGE_TYPES`. */
  const AllowedImageTypes: seq<string> := ["image/jpeg", "image/png", "image/gif", "image/webp"]

  /** `MAX_FILE_SIZE`: 10 MiB. */
  const MaxFileSize: nat := 10 * 1024 * 1024

  const UploadsPrefix: string := "/uploads/"

  /** `name.split('.')[-1]`: a suffix of the name that holds no `.`. */
  function Extension(name: string): (ext: string)
    ensures '.' !in ext
    ensures |ext| <= |name| && ext == name[|name| - |ext|..]
  {
    if name == [] || name[|name| - 1] == '.' then []
    else
      var init := name[..|name| - 1];
      assert name == init + [name[|name| - 1]];
      Extension(init) + [name[|name| - 1]]
  }

  /**
   * The extension is the text after the last `.` of the name, or the whole name when it has
   * no `.`.
   */
  lemma {:induction false} ExtensionAfterLastDot(name: string)
    ensures '.' !in name ==> Extension(name) == name
    ensures '.' in name ==> |Extension(name)| < |name| && name[|name| - |Extension(name)| - 1] == '.'
  {
    if name != [] && name[|name| - 1] != '.' {
      var init := name[..|name| - 1];
      assert name == init + [name[|name| - 1]];
      ExtensionAfterLastDot(init);
      if '.' in name {
        var k :| 0 <= k < |name| && name[k] == '.';
        assert init[k] == '.';
      }
    }
  }

  /** `posixpath.join(a, b)`. */
  function PathJoin(a: string, b: string): string {
    if StartsWith(b, "/") then b
    else if a == "" || EndsWith(a, "/") then a + b
    else a + "/" + b
  }

  /** The stored file name. */
  function StoredName(category: string, entityId: int, hex: string, filename: string): string {
    category + "_" + IntToString(entityId) + "_" + hex + "." + Extension(filename)
  }

  /** The URL returned for a stored file. */
  function FileUrl(category: string, name: string): string {
    UploadsPrefix + category + "/" + name
  }

  /** The path a file is written to. */
  function StoredPath(uploadDir: string, category: string, name: string): string {
    PathJoin(PathJoin(uploadDir, category), name)
  }

  /** The detail of the 400 answer to a refused content type. */
  const TypeNotAllowed: string := "File type not allowed. Allowed types: " + Join(", ", AllowedImageTypes)

  /** The detail of the 400 answer to a file above the maximum size. */
  const TooLarge: string := "File too large. Maximum size: " + IntToString(MaxFileSize / (1024 * 1024)) + "MB"

  /**
   * The checks of `_upload_image`: a type outside the list is refused first, then a size
   * above the maximum; a size equal to the maximum passes.
   */
  function UploadCheck(contentType: Option<string>, size: nat): (r: Option<HttpError>)
    ensures r.Some? <==> contentType.None? || contentType.value !in AllowedImageTypes || size > MaxFileSize
    ensures r.Some? ==> r.value.status == 400
  {
    if contentType.None? || contentType.value !in AllowedImageTypes then Some(HttpError(400, TypeNotAllowed))
    else if size > MaxFileSize then Some(HttpError(400, TooLarge))
    else None
  }

  // ---------------------------------------------------------------------------------------
  // delete_file: from a URL back to a path
  // ---------------------------------------------------------------------------------------

  /** As written: `os.path.join(upload_dir, url.replace('/uploads/', ''))` removes every occurrence. */
  function DeletePathAsWritten(uploadDir: string, url: string): string {
    PathJoin(uploadDir, Replace(url, UploadsPrefix, ""))
  }

  /** Intended: the path after the leading `/uploads/`. */
  function DeletePath(uploadDir: string, url: string): string
    requires StartsWith(url, UploadsPrefix)
  {
    PathJoin(uploadDir, url[|UploadsPrefix|..])
  }

  /** A relative category (not starting or ending with `/`). */
  predicate PlainCategory(category: string) {
    category != "" && category[0] != '/' && category[|category| - 1] != '/'
  }

  /** The URL of an uploaded file leads `delete_file` back to the path it was stored at. */
  lemma DeleteFindsStoredFile(uploadDir: string, category: string, name: string)
    requires PlainCategory(category) && name != "" && name[0] != '/'
    ensures StartsWith(FileUrl(category, name), UploadsPrefix)
    ensures DeletePath(uploadDir, FileUrl(category, name)) == StoredPath(uploadDir, category, name)
  {
    var url := FileUrl(category, name);
    var rel := category + "/" + name;
    assert StartsWith(url, UploadsPrefix) && url[|UploadsPrefix|..] == rel by {
      assert url == UploadsPrefix + rel;
      ConcatStartsWith(UploadsPrefix, rel);
    }
    var c := PathJoin(uploadDir, category);
    assert PathJoin(uploadDir, rel) == c + "/" + name by {
      assert !StartsWith(rel, "/") && !StartsWith(category, "/") by {
        assert rel[0] == category[0] != '/';
      }
      if uploadDir == "" || EndsWith(uploadDir, "/") {
        assert c + "/" + name == uploadDir + rel;
      } else {
        assert c + "/" + name == uploadDir + "/" + rel;
      }
    }
    assert StoredPath(uploadDir, category, name) == c + "/" + name by {
      assert !StartsWith(name, "/") by {
        assert name[0] != '/';
      }
      assert !EndsWith(c, "/") && c != "" by {
        assert !StartsWith(category, "/") by {
          assert category[0] != '/';
        }
        assert c[|c| - 1] == category[|category| - 1];
      }
    }
  }

  /**
   * As written, a URL with `/uploads/` inside its path loses that part too: for
   * `/uploads/a/uploads/b` the path is `a` and `b` run together, not `a/uploads/b`.
   */
  lemma DeleteAsWrittenDropsInnerPrefix(uploadDir: string, a: string, b: string)
    requires '/' !in a && '/' !in b
    ensures var url := UploadsPrefix + a + UploadsPrefix + b;
            && StartsWith(url, UploadsPrefix)
            && DeletePathAsWritten(uploadDir, url) == PathJoin(uploadDir, a + b)
            && DeletePath(uploadDir, url) == PathJoin(uploadDir, a + UploadsPrefix + b)
  {
    var p := UploadsPrefix;
    var tail := p + b;
    var rest := a + tail;
    var url := p + rest;
    assert url == p + a + p + b;
    assert Replace(url, p, "") == Replace(rest, p, "") by {
      ReplaceAtFront(rest, p, "");
    }
    assert Replace(rest, p, "") == a + Replace(tail, p, "") by {
      assert p[0] == '/';
      ReplaceSkipsPrefix(a, tail, p, "");
    }
    assert Replace(tail, p, "") == b by {
      ReplaceAtFront(b, p, "");
      ReplaceAbsent(b, p, "");
    }
    assert url[|p|..] == a + p + b;
  }

  // ---------------------------------------------------------------------------------------
  // The service
  // ---------------------------------------------------------------------------------------

  class FileUploadService {
    const uploadDir: string
    var files: set<string>

    constructor (uploadDir: string, files: set<string>)
      ensures this.uploadDir == uploadDir && this.files == files
    {
      this.uploadDir := uploadDir;
      this.files := files;
    }

    /**
     * `_upload_image`, given the request's content type, its size, its file name and the
     * random `uuid4().hex`: refuses with 400, or stores the file and returns its URL.
     */
    method UploadImage(category: string, entityId: int, contentType: Option<string>, size: nat, filename: string, hex: string)
        returns (r: Result<string, HttpError>)
      modifies this
      ensures UploadCheck(contentType, size).Some? ==> r == Err(UploadCheck(contentType, size).value) && files == old(files)
      ensures UploadCheck(contentType, size).None? ==>
                var name := StoredName(category, entityId, hex, filename);
                r == Ok(FileUrl(category, name)) && files == old(files) + {StoredPath(uploadDir, category, name)}
    {
      if contentType.None? || contentType.value !in AllowedImageTypes {
        return Err(HttpError(400, TypeNotAllowed));
      }
      if size > MaxFileSize {
        return Err(HttpError(400, TooLarge));
      }
      var name := StoredName(category, entityId, hex, filename);
      files := files + {StoredPath(uploadDir, category, name)};
      return Ok(FileUrl(category, name));
    }

    /** `delete_file`: removes the file a `/uploads/` URL names, if it exists. */
    method DeleteFile(url: string) returns (ok: bool)
      modifies this
      ensures ok <==> StartsWith(url, UploadsPrefix) && DeletePath(uploadDir, url) in old(files)
      ensures ok ==> files == old(files) - {DeletePath(uploadDir, url)}
      ensures !ok ==> files == old(files)
    {
      if StartsWith(url, UploadsPrefix) {
        var path := PathJoin(uploadDir, url[|UploadsPrefix|..]);
        if path in files {
          files := files - {path};
          return true;
        }
      }
      return false;
    }
  }

  /**
   * The stored name starts with the category and `_`, and ends with a `.` followed by the
   * extension of the original file name.
   */
  lemma {:induction false} StoredNameShape(category: string, entityId: int, hex: string, filename: string)
    ensures var name := StoredName(category, entityId, hex, filename);
            && StartsWith(name, category + "_")
            && EndsWith(name, Extension(filename))
            && name[|name| - |Extension(filename)| - 1] == '.'
            && (PlainCategory(category) ==> name != "" && name[0] != '/')
  {
    var e := Extension(filename);
    var head := category + "_";
    var a1 := head + IntToString(entityId);
    var a2 := a1 + "_";
    var a3 := a2 + hex;
    var a4 := a3 + ".";
    var name := a4 + e;
    assert name == StoredName(category, entityId, hex, filename);
    assert EndsWith(name, e) && name[|a3|] == '.' by {
      ConcatEndsWith(a4, e);
      assert name[|a3|] == a4[|a3|];
    }
    assert StartsWith(name, head) by {
      ConcatStartsWith(head, IntToString(entityId));
      ConcatStartsWith(a1, "_");
      ConcatStartsWith(a2, hex);
      ConcatStartsWith(a3, ".");
      ConcatStartsWith(a4, e);
    }
    if category != "" {
      assert name[0] == head[0] == category[0];
    }
  }

  /** An upload's URL leads `delete_file` to the stored file. */
  lemma UploadThenDelete(uploadDir: string, category: string, entityId: int, hex: string, filename: string)
    requires PlainCategory(category)
    ensures var name := StoredName(category, entityId, hex, filename);
            && StartsWith(FileUrl(category, name), UploadsPrefix)
            && DeletePath(uploadDir, FileUrl(category, name)) == StoredPath(uploadDir, category, name)
  {
    StoredNameShape(category, entityId, hex, filename);
    DeleteFindsStoredFile(uploadDir, category, StoredName(category, entityId, hex, filename));
  }

  /** After a `.`, a text without `.` is the extension, whatever comes before. */
  lemma {:induction false} ExtensionAfterDot(pre: string, ext: string)
    requires '.' !in ext
    ensures Extension(pre + "." + ext) == ext
  {
    if ext != [] {
      var init := ext[..|ext| - 1];
      var c := ext[|ext| - 1];
      var name := pre + "." + ext;
      assert Extension(name) == Extension(pre + "." + init) + [c] by {
        assert name[..|name| - 1] == pre + "." + init;
        assert name[|name| - 1] == c != '.';
      }
      ExtensionAfterDot(pre, init);
      assert init + [c] == ext;
    }
  }

  /** The extension of `photo.final.png` is `png`. */
  lemma ExtensionExample(name: string)
    requires name == "photo.final.png"
    ensures Extension(name) == "png"
  {
    assert name == "photo.final" + "." + "png";
    ExtensionAfterDot("photo.final", "png");
  }
}
