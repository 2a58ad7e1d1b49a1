/** Opening the last session again, after `try_restore_session` in `app/main.cpp`: what the saved
    text brings back into the connection form, and what it does not. */
module SessionRestore {
  import opened JsonFields

  /** A string up to its first NUL, as `c_str()` hands it on. */
  function CString(s: string): string {
    if s == [] || s[0] == '\0' then [] else [s[0]] + CString(s[1..])
  }

  /** What `strncpy` leaves in a buffer of this many characters whose last one is NUL. */
  function Clipped(s: string, size: nat): string {
    var c := CString(s);
    if |c| < size then c else if size == 0 then [] else c[..size - 1]
  }

  ghost predicate Fits(s: string, size: nat) {
    |s| < size && '\0' !in s
  }

  /** Every text of the form is a C string in its own buffer. */
  ghost predicate Buffered(f: Form) {
    && Fits(f.path, 512) && Fits(f.bucket, 128) && Fits(f.prefix, 128) && Fits(f.region, 64) && Fits(f.branch, 64)
    && Fits(f.access, 128) && Fits(f.secret, 256) && Fits(f.endpoint, 256)
  }

  /** The form after the saved text has been read into it. */
  function FormFrom(raw: string, was: Form): Form {
    if Find(raw, Needle("kind")).None? then was
    else if Extracted(raw, "kind") != "s3" then was.(local := true, path := Clipped(Extracted(raw, "path"), 512))
    else
      was.(local := false, bucket := Clipped(Extracted(raw, "bucket"), 128), prefix := Clipped(Extracted(raw, "prefix"), 128),
           region := Clipped(Extracted(raw, "region"), 64), access := Clipped(Extracted(raw, "access_key_id"), 128),
           secret := Clipped(Extracted(raw, "secret_access_key"), 256), endpoint := Clipped(Extracted(raw, "endpoint_url"), 256))
  }

  class Connection {
    var form: Form
    var formServer: string
    var formId: string
    var server: string
    var id: string

    /** `try_restore_session`: whether a mount is started. */
    method TryRestore(raw: string) returns (mounts: bool)
      modifies this
      ensures mounts <==> raw != "" && Extracted(raw, "server_url") != "" && Extracted(raw, "building_id") != ""
      ensures !mounts ==> form == old(form) && formServer == old(formServer) && formId == old(formId)
                          && server == old(server) && id == old(id)
      ensures mounts ==> server == Extracted(raw, "server_url") && id == Extracted(raw, "building_id")
      ensures mounts ==> formServer == Clipped(server, 256) && formId == Clipped(id, 64) && form == FormFrom(raw, old(form))
    {
      hide Find, Extracted, Needle, CString;
      if raw == "" { return false; }
      var s := JsonStringField(raw, "server_url");
      var b := JsonStringField(raw, "building_id");
      if s == "" || b == "" { return false; }
      formServer, formId := Clipped(s, 256), Clipped(b, 64);
      server, id := s, b;
      var at := FindNeedle(raw, Needle("kind"));
      if at.Some? {
        var kind := JsonStringField(raw, "kind");
        form := form.(local := kind != "s3");
        if form.local {
          var path := JsonStringField(raw, "path");
          form := form.(path := Clipped(path, 512));
        } else {
          RestoreBucket(raw);
        }
      }
      mounts := true;
    }

    method RestoreBucket(raw: string)
      modifies this`form
      ensures form == old(form).(bucket := Clipped(Extracted(raw, "bucket"), 128), prefix := Clipped(Extracted(raw, "prefix"), 128),
                region := Clipped(Extracted(raw, "region"), 64), access := Clipped(Extracted(raw, "access_key_id"), 128),
                secret := Clipped(Extracted(raw, "secret_access_key"), 256),
                endpoint := Clipped(Extracted(raw, "endpoint_url"), 256))
    {
      hide Extracted, CString;
      var bucket := JsonStringField(raw, "bucket");
      form := form.(bucket := Clipped(bucket, 128));
      var prefix := JsonStringField(raw, "prefix");
      form := form.(prefix := Clipped(prefix, 128));
      var region := JsonStringField(raw, "region");
      form := form.(region := Clipped(region, 64));
      var access := JsonStringField(raw, "access_key_id");
      form := form.(access := Clipped(access, 128));
      var secret := JsonStringField(raw, "secret_access_key");
      form := form.(secret := Clipped(secret, 256));
      var endpoint := JsonStringField(raw, "endpoint_url");
      form := form.(endpoint := Clipped(endpoint, 256));
    }
  }

  lemma {:induction false} ClippedFits(s: string, size: nat)
    requires Fits(s, size)
    ensures Clipped(s, size) == s
  {
    CStringWhole(s);
  }

  lemma {:induction false} CStringWhole(s: string)
    requires '\0' !in s
    ensures CString(s) == s
  {
    if s != [] {
      CStringWhole(s[1..]);
      assert s == [s[0]] + s[1..];
    }
  }

  /** A key that no field of the object has is not found in it. */
  lemma {:induction false} ObjectLacks(fs: seq<(string, string)>, tail: seq<Token>, key: string)
    requires forall i :: 0 <= i < |fs| ==> fs[i].0 != key
    requires Field(tail, key) == None
    ensures Field(ObjectTokens(fs, tail), key) == None
    decreases |fs|
  {
    if fs == [] {
      assert ([Plain('}')] + tail)[1..] == tail;
    } else {
      ObjectLacks(fs[1..], tail, key);
      var end := ObjectTokens(fs[1..], tail);
      var rest := (if |fs| == 1 then [] else [Plain(',')]) + end;
      assert ObjectTokens(fs, tail) == FieldTokens(fs[0]) + rest;
      assert rest == if |fs| == 1 then end else [Plain(',')] + end;
      assert |fs| != 1 ==> rest[1..] == end;
      FieldHead(fs[0], rest, key);
    }
  }

  lemma NoEndpoint(server: string, id: string, f: Form)
    requires f.endpoint == "" && !f.local
    ensures Extracted(SessionText(server, id, f), "endpoint_url") == ""
  {
    AccessKeys();
    var fs := MountFields(f);
    assert fs == RemoteFields(f) + [] == RemoteFields(f);
    assert |fs| == 7;
    forall i | 0 <= i < |fs| ensures fs[i].0 != "endpoint_url" {
      assert Mark(fs[i].0) != Mark("endpoint_url") by { PlaceKeys(); }
    }
    hide Extracted, Key, RemoteFields, MountFields, SessionText, Mark;
    assert [Plain('}')][1..] == [];
    ObjectLacks(fs, [Plain('}')], "endpoint_url");
    var ts := ObjectTokens(fs, [Plain('}')]);
    assert ([Plain('{')] + ts)[1..] == ts;
    SessionOne(server, id, f, "endpoint_url");
  }

  /** What the six bucket fields and the kind read as in the saved text. */
  lemma RemoteRead(server: string, id: string, f: Form)
    requires !f.local
    ensures var text := SessionText(server, id, f);
            && Extracted(text, "kind") == "s3" && Extracted(text, "bucket") == f.bucket
            && Extracted(text, "prefix") == f.prefix && Extracted(text, "region") == f.region
            && Extracted(text, "access_key_id") == (if f.accessHeld then "" else f.access)
            && Extracted(text, "secret_access_key") == (if f.secretHeld then "" else f.secret)
            && Extracted(text, "endpoint_url") == f.endpoint
  {
    var fs := MountFields(f);
    assert fs[0] == ("kind", "s3") && fs[1] == ("bucket", f.bucket) && fs[2] == ("prefix", f.prefix) && fs[3] == ("region", f.region);
    assert fs[5] == ("access_key_id", if f.accessHeld then "" else f.access);
    assert fs[6] == ("secret_access_key", if f.secretHeld then "" else f.secret);
    assert f.endpoint != "" ==> fs[7] == ("endpoint_url", f.endpoint);
    hide Extracted, SessionText, MountFields, RemoteFields;
    SessionBack(server, id, f);
    if f.endpoint == "" { NoEndpoint(server, id, f); }
  }

  lemma LocalRead(server: string, id: string, f: Form)
    requires f.local
    ensures var text := SessionText(server, id, f); Extracted(text, "kind") == "local" && Extracted(text, "path") == f.path
  {
    var fs := MountFields(f);
    assert fs[0] == ("kind", "local") && fs[1] == ("path", f.path);
    hide Extracted, SessionText, MountFields;
    SessionBack(server, id, f);
  }

  /** Saved and opened again, for every form: the kind and all texts of that kind come back but the
      branch, which stays what the form had; a key that the server holds comes back empty. */
  lemma FormBack(server: string, id: string, f: Form, was: Form)
    requires Buffered(f)
    ensures FormFrom(SessionText(server, id, f), was)
         == if f.local then was.(local := true, path := f.path)
            else Form(false, was.path, f.bucket, f.prefix, f.region, was.branch, if f.accessHeld then "" else f.access,
                      if f.secretHeld then "" else f.secret, was.accessHeld, was.secretHeld, f.endpoint)
  {
    hide SessionText, Find, CString, Unescaped, Needle;
    var text := SessionText(server, id, f);
    if f.local {
      LocalRead(server, id, f);
      ClippedFits(f.path, 512);
    } else {
      RemoteRead(server, id, f);
      ClippedFits(f.bucket, 128);
      ClippedFits(f.prefix, 128);
      ClippedFits(f.region, 64);
      ClippedFits(if f.accessHeld then "" else f.access, 128);
      ClippedFits(if f.secretHeld then "" else f.secret, 256);
      ClippedFits(f.endpoint, 256);
    }
  }

  function MountJson(f: Form): string {
    "{" + Joined(MountFields(f)) + "}"
  }

  /** The mount text by its keys: what the server finds under each of them. */
  lemma MountByName(f: Form)
    ensures var text := MountJson(f);
            if f.local then Extracted(text, "kind") == "local" && Extracted(text, "path") == f.path
            else
              && Extracted(text, "kind") == "s3" && Extracted(text, "bucket") == f.bucket
              && Extracted(text, "prefix") == f.prefix && Extracted(text, "region") == f.region
              && Extracted(text, "branch") == f.branch
              && Extracted(text, "access_key_id") == (if f.accessHeld then "" else f.access)
              && Extracted(text, "secret_access_key") == (if f.secretHeld then "" else f.secret)
              && (f.endpoint != "" ==> Extracted(text, "endpoint_url") == f.endpoint)
  {
    var fs := MountFields(f);
    if f.local {
      assert fs[0] == ("kind", "local") && fs[1] == ("path", f.path) && |fs| == 2;
    } else {
      assert fs[0] == ("kind", "s3") && fs[1] == ("bucket", f.bucket) && fs[2] == ("prefix", f.prefix);
      assert fs[3] == ("region", f.region) && fs[4] == ("branch", f.branch);
      assert fs[5] == ("access_key_id", if f.accessHeld then "" else f.access);
      assert fs[6] == ("secret_access_key", if f.secretHeld then "" else f.secret);
      assert f.endpoint != "" ==> |fs| == 8 && fs[7] == ("endpoint_url", f.endpoint);
    }
    hide Extracted, Joined, MountFields, RemoteFields;
    forall i | 0 <= i < |fs| ensures Extracted(MountJson(f), fs[i].0) == fs[i].1 {
      MountBack(f, i);
    }
  }

  /** Opening the session again asks for the mount that was saved exactly when it was a local one, or
      the form already stands at the saved branch and does not mark a saved key as held. */
  lemma MountsAgain(server: string, id: string, f: Form, was: Form)
    requires Buffered(f)
    ensures MountJson(FormFrom(SessionText(server, id, f), was)) == MountJson(f)
       <==> f.local || (was.branch == f.branch
                        && (was.accessHeld ==> f.accessHeld || f.access == "") && (was.secretHeld ==> f.secretHeld || f.secret == ""))
  {
    FormBack(server, id, f, was);
    var back := FormFrom(SessionText(server, id, f), was);
    if f.local {
      assert MountFields(back) == MountFields(f);
    } else {
      hide FormFrom, SessionText, Buffered, Extracted, Joined;
      MountByName(f);
      MountByName(back);
      if was.branch == f.branch && (was.accessHeld ==> f.accessHeld || f.access == "")
         && (was.secretHeld ==> f.secretHeld || f.secret == "") {
        assert RemoteFields(back) == RemoteFields(f);
      }
    }
  }
}
