/// The menu catalog: lookups with their id guards, creation with an image
/// upload, full replacement of the scalar fields with an optional image
/// swap, and deletion of the item and its image. The image's blob name is
/// the text after the last '/' of the stored URI.
module MenuItemController {
  import opened Common
  import opened Models
  import opened Data
  import opened Services
  import SD

  const InvalidModelStateMessage := "Invalid Model State"
  const MenuItemNotFoundMessage := "Menu Item not found"

  /// An uploaded file: its name and its length in bytes.
  datatype FormFile = FormFile(fileName: string, length: nat)

  datatype MenuItemCreateDto = MenuItemCreateDto(
    name: string,
    description: string,
    specialTag: string,
    category: string,
    price: real,
    file: Option<FormFile>)

  datatype MenuItemUpdateDto = MenuItemUpdateDto(
    id: int,
    name: string,
    description: string,
    specialTag: string,
    category: string,
    price: real,
    file: Option<FormFile>)

  /// `s.Split('/')`: the pieces between the slashes, in order; there is
  /// always one more piece than there are slashes.
  function Split(s: string): (r: seq<string>)
    ensures |r| >= 1
    ensures forall i :: 0 <= i < |r| ==> '/' !in r[i]
  {
    if s == [] then [""]
    else
      var init := Split(s[..|s| - 1]);
      var c := s[|s| - 1];
      if c == '/' then init + [""]
      else init[..|init| - 1] + [init[|init| - 1] + [c]]
  }

  /// The pieces joined back together with '/' between them.
  function Join(parts: seq<string>): string
    requires |parts| >= 1
  {
    if |parts| == 1 then parts[0] else Join(parts[..|parts| - 1]) + "/" + parts[|parts| - 1]
  }

  /// Splitting loses nothing: joining the pieces gives the string back.
  lemma {:induction false} SplitJoin(s: string)
    ensures Join(Split(s)) == s
  {
    if s != [] {
      var s' := s[..|s| - 1];
      SplitJoin(s');
      JoinExtend(Split(s'), s[|s| - 1]);
      assert s == s' + [s[|s| - 1]];
    }
  }

  /// One more character: a '/' starts a new empty piece, anything else
  /// extends the last piece; either way the join grows by that character.
  lemma JoinExtend(init: seq<string>, c: char)
    requires |init| >= 1
    ensures c == '/' ==> Join(init + [""]) == Join(init) + [c]
    ensures c != '/' ==> Join(init[..|init| - 1] + [init[|init| - 1] + [c]]) == Join(init) + [c]
  {
    var n := |init|;
    if c == '/' {
      var r := init + [""];
      assert r[..n] == init;
      assert Join(r) == Join(init) + "/" + "";
    } else {
      var last := init[n - 1];
      var r := init[..n - 1] + [last + [c]];
      if n == 1 {
        assert Join(r) == last + [c];
      } else {
        assert r[..n - 1] == init[..n - 1];
        var front := Join(init[..n - 1]);
        assert Join(r) == front + "/" + (last + [c]);
        assert Join(init) == front + "/" + last;
      }
    }
  }

  /// The blob name of an image URI, `Image.Split('/').Last()`: the longest
  /// slash-free tail of the URI.
  function BlobName(uri: string): (r: string)
    ensures '/' !in r
    ensures '/' !in uri ==> r == uri
  {
    if uri == [] || uri[|uri| - 1] == '/' then []
    else
      var init := uri[..|uri| - 1];
      var r' := BlobName(init);
      assert '/' !in uri ==> '/' !in init;
      assert uri == init + [uri[|uri| - 1]];
      r' + [uri[|uri| - 1]]
  }

  /// A tail of `s` one longer than a tail of its initial part is that tail
  /// followed by the last character.
  lemma TailOfInit(s: string, n: nat)
    requires n < |s|
    ensures s[|s| - (n + 1)..] == s[..|s| - 1][|s| - 1 - n..] + [s[|s| - 1]]
  {
    var tail, shorter := s[|s| - (n + 1)..], s[..|s| - 1][|s| - 1 - n..];
    assert forall k :: 0 <= k < n ==> tail[k] == shorter[k];
  }

  /// The blob name is a tail of the URI, and when it is not the whole URI
  /// a '/' stands right before it: it is what follows the last '/'.
  lemma {:induction false} BlobNameIsTail(uri: string)
    ensures |BlobName(uri)| <= |uri| && BlobName(uri) == uri[|uri| - |BlobName(uri)|..]
    ensures |BlobName(uri)| < |uri| ==> uri[|uri| - |BlobName(uri)| - 1] == '/'
  {
    if uri != [] && uri[|uri| - 1] != '/' {
      var init := uri[..|uri| - 1];
      BlobNameIsTail(init);
      var n := |BlobName(init)|;
      assert BlobName(uri) == BlobName(init) + [uri[|uri| - 1]];
      TailOfInit(uri, n);
      if n < |init| {
        assert uri[|uri| - (n + 1) - 1] == init[|init| - n - 1];
      }
    }
  }

  /// The blob name is exactly the last piece of `Split`.
  lemma {:induction false} BlobNameIsLastPiece(uri: string)
    ensures BlobName(uri) == Split(uri)[|Split(uri)| - 1]
  {
    if uri != [] && uri[|uri| - 1] != '/' {
      BlobNameIsLastPiece(uri[..|uri| - 1]);
    }
  }

  /// Whatever precedes the last '/', the blob name is what follows it.
  lemma {:induction false} BlobNameAfterSlash(prefix: string, name: string)
    requires '/' !in name
    ensures BlobName(prefix + "/" + name) == name
  {
    var uri := prefix + "/" + name;
    if name != [] {
      var name' := name[..|name| - 1];
      assert uri[..|uri| - 1] == prefix + "/" + name';
      BlobNameAfterSlash(prefix, name');
      assert name == name' + [name[|name| - 1]];
    }
  }

  /// The URI an upload answers names the uploaded blob again.
  lemma BlobNameOfUri(accountUri: string, container: string, name: string)
    requires '/' !in name
    ensures BlobName(BlobUri(accountUri, container, name)) == name
  {
    BlobNameAfterSlash(accountUri + "/" + container, name);
  }

  /// `GetMenuItem`: a non-positive id is refused, an unknown one is reported
  /// (also as BadRequest), and a known one answers the stored item.
  function GetMenuItem(db: Db, id: int): (r: Reply<MenuItem>)
    reads db
    requires db.MenuValid()
    ensures id <= 0 ==> r == Failure(BadRequest, BadRequest, "Invalid Id: " + IntToString(id))
    ensures id > 0 && id !in db.menuItems ==>
      r == Failure(BadRequest, BadRequest, "Menu Item '" + IntToString(id) + "' not found")
    ensures id > 0 && id in db.menuItems ==>
      r == Reply(OK, Envelope(Some(OK), None, [], Some(db.menuItems[id])))
  {
    if id <= 0 then
      Failure(BadRequest, BadRequest, "Invalid Id: " + IntToString(id))
    else if id !in db.menuItems then
      Failure(BadRequest, BadRequest, "Menu Item '" + IntToString(id) + "' not found")
    else
      Reply(OK, Envelope(Some(OK), None, [], Some(db.menuItems[id])))
  }

  /// The file of a request carries content.
  predicate HasContent(file: Option<FormFile>) {
    file.Some? && file.value.length > 0
  }

  /// `CreateMenuItem`: with a valid request and a non-empty file, upload
  /// the file as blob `fileName` and store a new item holding the request's
  /// fields and the blob's URI. `fileName` stands for the generated
  /// unique name.
  method CreateMenuItem(db: Db, blobService: BlobService, modelValid: bool, dto: MenuItemCreateDto, fileName: string)
    returns (r: Reply<MenuItem>)
    requires db.MenuValid()
    modifies db`menuItems, db`nextMenuItemId, blobService`blobs
    ensures db.MenuValid()
    ensures !modelValid ==>
      r == Reply(OK, Envelope(Some(BadRequest), Some(false), [InvalidModelStateMessage], None)) &&
      db.menuItems == old(db.menuItems) && blobService.blobs == old(blobService.blobs)
    ensures modelValid && !HasContent(dto.file) ==>
      r == Reply(BadRequest, NoBody) &&
      db.menuItems == old(db.menuItems) && blobService.blobs == old(blobService.blobs)
    ensures modelValid && HasContent(dto.file) ==>
      var id := old(db.nextMenuItemId);
      var item := MenuItem(id, dto.name, dto.description, dto.specialTag, dto.category, dto.price,
                           BlobUri(blobService.accountUri, SD.StorageContainer, fileName));
      id !in old(db.menuItems) &&
      db.menuItems == old(db.menuItems)[id := item] &&
      blobService.blobs == old(blobService.blobs) + {fileName} &&
      r == Reply(Created, Envelope(Some(Created), None, [], Some(item)))
  {
    if !modelValid {
      return Reply(OK, Envelope(Some(BadRequest), Some(false), [InvalidModelStateMessage], None));
    }
    if !HasContent(dto.file) {
      return Reply(BadRequest, NoBody);
    }
    var image := blobService.UploadBlob(fileName);
    var id := db.nextMenuItemId;
    var menuItemToCreate := MenuItem(id, dto.name, dto.description, dto.specialTag, dto.category, dto.price, image);
    db.menuItems := db.menuItems[id := menuItemToCreate];
    db.nextMenuItemId := id + 1;
    r := Reply(Created, Envelope(Some(Created), None, [], Some(menuItemToCreate)));
  }

  /// The stored item after an update: the request's five scalar fields over
  /// the stored row, with image `image`.
  function Updated(was: MenuItem, u: MenuItemUpdateDto, image: string): (m: MenuItem)
    ensures m.id == was.id && m.image == image
    ensures (m.name, m.description, m.specialTag, m.category, m.price)
         == (u.name, u.description, u.specialTag, u.category, u.price)
  {
    was.(name := u.name, description := u.description, specialTag := u.specialTag,
         category := u.category, price := u.price, image := image)
  }

  /// Delete the blob an image URI names, then upload blob `fileName` and
  /// answer its URI.
  method ReplaceImage(blobService: BlobService, oldImage: string, fileName: string) returns (image: string)
    modifies blobService`blobs
    ensures image == BlobUri(blobService.accountUri, SD.StorageContainer, fileName)
    ensures blobService.blobs == old(blobService.blobs) - {BlobName(oldImage)} + {fileName}
  {
    var _ := blobService.DeleteBlob(BlobName(oldImage));
    image := blobService.UploadBlob(fileName);
  }

  /// The part of `UpdateMenuItem` past its guards: overwrite the stored
  /// item, swapping its image when the request carries a non-empty file.
  method ApplyMenuUpdate(db: Db, blobService: BlobService, id: int, u: MenuItemUpdateDto, fileName: string)
    requires db.MenuValid() && id in db.menuItems
    modifies db`menuItems, blobService`blobs
    ensures db.MenuValid()
    ensures HasContent(u.file) ==>
      db.menuItems == old(db.menuItems)[id := Updated(old(db.menuItems)[id], u,
                                          BlobUri(blobService.accountUri, SD.StorageContainer, fileName))] &&
      blobService.blobs == old(blobService.blobs) - {BlobName(old(db.menuItems)[id].image)} + {fileName}
    ensures !HasContent(u.file) ==>
      db.menuItems == old(db.menuItems)[id := Updated(old(db.menuItems)[id], u, old(db.menuItems)[id].image)] &&
      blobService.blobs == old(blobService.blobs)
  {
    var menuItemFromDb := db.menuItems[id];
    var image := menuItemFromDb.image;
    if HasContent(u.file) {
      image := ReplaceImage(blobService, image, fileName);
    }
    var updated := Updated(menuItemFromDb, u, image);
    MenuWellFormedKept(db.menuItems, db.nextMenuItemId, id, updated);
    db.menuItems := db.menuItems[id := updated];
  }

  /// `UpdateMenuItem`: with a valid request whose id matches the route's and
  /// names a stored item, overwrite the five scalar fields; when the request
  /// carries a non-empty file, also delete the blob the old image names and
  /// store the URI of the newly uploaded blob `fileName`.
  method UpdateMenuItem(db: Db, blobService: BlobService, id: int, modelValid: bool,
                        dto: Option<MenuItemUpdateDto>, fileName: string)
    returns (r: Reply<MenuItem>)
    requires db.MenuValid()
    modifies db`menuItems, blobService`blobs
    ensures db.MenuValid()
    ensures !modelValid ==>
      r == Reply(OK, Envelope(None, None, [], None)) &&
      db.menuItems == old(db.menuItems) && blobService.blobs == old(blobService.blobs)
    ensures modelValid && (dto.None? || id != dto.value.id) ==>
      r == Reply(BadRequest, NoBody) &&
      db.menuItems == old(db.menuItems) && blobService.blobs == old(blobService.blobs)
    ensures modelValid && dto.Some? && id == dto.value.id && id !in old(db.menuItems) ==>
      r == Failure(NotFound, NotFound, MenuItemNotFoundMessage) &&
      db.menuItems == old(db.menuItems) && blobService.blobs == old(blobService.blobs)
    ensures modelValid && dto.Some? && id == dto.value.id && id in old(db.menuItems) ==>
      r == Reply(OK, Envelope(Some(NoContent), None, [], None)) &&
      (HasContent(dto.value.file) ==>
        db.menuItems == old(db.menuItems)[id := Updated(old(db.menuItems)[id], dto.value,
                                            BlobUri(blobService.accountUri, SD.StorageContainer, fileName))] &&
        blobService.blobs == old(blobService.blobs) - {BlobName(old(db.menuItems)[id].image)} + {fileName}) &&
      (!HasContent(dto.value.file) ==>
        db.menuItems == old(db.menuItems)[id := Updated(old(db.menuItems)[id], dto.value, old(db.menuItems)[id].image)] &&
        blobService.blobs == old(blobService.blobs))
  {
    if !modelValid {
      return Reply(OK, Envelope(None, None, [], None));
    }
    if dto.None? || id != dto.value.id {
      return Reply(BadRequest, NoBody);
    }
    if id !in db.menuItems {
      return Failure(NotFound, NotFound, MenuItemNotFoundMessage);
    }
    ApplyMenuUpdate(db, blobService, id, dto.value, fileName);
    r := Reply(OK, Envelope(Some(NoContent), None, [], None));
  }

  /// `DeleteMenuItem`: id 0 is refused up front; an unknown id (negative
  /// ones included) is NotFound; otherwise the blob the item's image names
  /// is deleted, then the item.
  method DeleteMenuItem(db: Db, blobService: BlobService, id: int) returns (r: Reply<MenuItem>)
    requires db.MenuValid()
    modifies db`menuItems, blobService`blobs
    ensures db.MenuValid()
    ensures id == 0 ==>
      r == Reply(BadRequest, NoBody) &&
      db.menuItems == old(db.menuItems) && blobService.blobs == old(blobService.blobs)
    ensures id != 0 && id !in old(db.menuItems) ==>
      r == Failure(NotFound, NotFound, "Menu Item '" + IntToString(id) + "' not found") &&
      db.menuItems == old(db.menuItems) && blobService.blobs == old(blobService.blobs)
    ensures id != 0 && id in old(db.menuItems) ==>
      r == Reply(OK, Envelope(Some(NoContent), None, [], None)) &&
      db.menuItems == old(db.menuItems) - {id} &&
      blobService.blobs == old(blobService.blobs) - {BlobName(old(db.menuItems)[id].image)}
  {
    if id == 0 {
      return Reply(BadRequest, NoBody);
    }
    if id !in db.menuItems {
      return Failure(NotFound, NotFound, "Menu Item '" + IntToString(id) + "' not found");
    }
    var menuItemFromDb := db.menuItems[id];
    var _ := blobService.DeleteBlob(BlobName(menuItemFromDb.image));
    db.menuItems := db.menuItems - {id};
    r := Reply(OK, Envelope(Some(NoContent), None, [], None));
  }

  /// Creating an item and then deleting it leaves the catalog and the blob
  /// container as they were: the delete removes exactly the uploaded blob.
  method CreateThenDelete(db: Db, blobService: BlobService, dto: MenuItemCreateDto, fileName: string)
    returns (created: Reply<MenuItem>, deleted: Reply<MenuItem>)
    requires db.MenuValid() && HasContent(dto.file)
    requires '/' !in fileName && fileName !in blobService.blobs
    modifies db`menuItems, db`nextMenuItemId, blobService`blobs
    ensures created.Reply? && created.http == Created
    ensures deleted == Reply(OK, Envelope(Some(NoContent), None, [], None))
    ensures db.menuItems == old(db.menuItems) && blobService.blobs == old(blobService.blobs)
  {
    var id := db.nextMenuItemId;
    created := CreateMenuItem(db, blobService, true, dto, fileName);
    BlobNameOfUri(blobService.accountUri, SD.StorageContainer, fileName);
    deleted := DeleteMenuItem(db, blobService, id);
  }
}
