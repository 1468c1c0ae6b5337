/** The kiosk's credentials file: written beside and renamed, with the power cut at any step. */
module Storage {
  import opened Results

  datatype Credentials = Credentials(clientId: string, clientSecret: string, name: string)

  /** How credentials are written as text and read back, by contract. */
  datatype Codec = Codec(dump: Credentials -> string, parse: string -> Option<Credentials>) {
    ghost predicate Valid() {
      forall c :: parse(dump(c)) == Some(c)
    }

    /** A file that some credentials were written to, completely. */
    ghost predicate Complete(file: Option<string>) {
      file.Some? ==> exists c :: file.value == dump(c)
    }
  }

  // ---- Any run of writes ----

  /** Saving, with the power gone after so many steps, or forgetting. */
  datatype Write = Saving(credentials: Credentials, steps: nat) | Forgetting

  /** Opening, a step for each character, and replacing. */
  function StepsToSave(codec: Codec, credentials: Credentials): nat {
    |codec.dump(credentials)| + 2
  }

  function After(codec: Codec, file: Option<string>, write: Write): Option<string> {
    match write
    case Saving(c, steps) => if steps >= StepsToSave(codec, c) then Some(codec.dump(c)) else file
    case Forgetting => None
  }

  function AfterAll(codec: Codec, file: Option<string>, writes: seq<Write>): Option<string>
    decreases |writes|
  {
    if writes == [] then file else AfterAll(codec, After(codec, file, writes[0]), writes[1..])
  }

  ghost predicate SavedIn(writes: seq<Write>, c: Credentials) {
    exists i :: 0 <= i < |writes| && writes[i].Saving? && writes[i].credentials == c
  }

  /** Wherever the power goes, what is read back is nothing, what was there before, or some
    * credentials that were saved, whole. */
  lemma {:induction false} NeverHalfAFile(codec: Codec, file: Option<string>, writes: seq<Write>)
    requires codec.Valid() && codec.Complete(file)
    ensures var kept := AfterAll(codec, file, writes);
            && codec.Complete(kept)
            && (kept.Some? ==> kept == file || exists c :: SavedIn(writes, c) && codec.parse(kept.value) == Some(c))
    decreases |writes|
  {
    if writes != [] {
      var next := After(codec, file, writes[0]);
      NeverHalfAFile(codec, next, writes[1..]);
      var kept := AfterAll(codec, file, writes);
      if kept.Some? && kept != file {
        var c: Credentials;
        if kept == next {
          c := writes[0].credentials;
        } else {
          c :| SavedIn(writes[1..], c) && codec.parse(kept.value) == Some(c);
          var i :| 0 <= i < |writes[1..]| && writes[1..][i].Saving? && writes[1..][i].credentials == c;
          assert writes[i + 1].credentials == c;
        }
        assert SavedIn(writes, c) && codec.parse(kept.value) == Some(c);
      }
    }
  }

  /** The file is there, but is not what `save` writes. */
  datatype Malformed = Malformed(text: string)

  class Disk {
    const codec: Codec
    var file: Option<string>
    var partial: Option<string>

    constructor (codec: Codec)
      requires codec.Valid()
      ensures this.codec == codec && file == None && Valid() && Stored() == None
    {
      this.codec, file, partial := codec, None, None;
    }

    ghost predicate Valid()
      reads this
    {
      codec.Valid() && codec.Complete(file)
    }

    /** The credentials kept. */
    ghost function Stored(): Option<Credentials>
      reads this
    {
      if file.None? then None else codec.parse(file.value)
    }

    /** Nothing, or some complete value once saved; only a file `save` never wrote is malformed. */
    method Load() returns (loaded: Result<Option<Credentials>, Malformed>)
      ensures Valid() ==> loaded == Success(Stored())
      ensures Valid() && file.Some? ==> Stored().Some? && file.value == codec.dump(Stored().value)
      ensures loaded.Failure? <==> file.Some? && codec.parse(file.value).None?
    {
      if file.None? {
        return Success(None);
      }
      var parsed := codec.parse(file.value);
      loaded := if parsed.Some? then Success(parsed) else Failure(Malformed(file.value));
    }

    /** Writes beside the file and replaces it whole; the power may go after any step. */
    method Save(credentials: Credentials, steps: nat) returns (finished: bool)
      requires Valid()
      modifies this
      ensures Valid()
      ensures finished <==> steps >= StepsToSave(codec, credentials)
      ensures file == After(codec, old(file), Saving(credentials, steps))
      ensures finished ==> file == Some(codec.dump(credentials)) && partial == None && Stored() == Some(credentials)
      ensures !finished ==> file == old(file) && Stored() == old(Stored())
    {
      var text := codec.dump(credentials);
      if steps < 1 {
        return false;
      }
      partial := Some("");
      for i := 0 to |text|
        invariant file == old(file) && partial == Some(text[..i]) && i + 1 <= steps
      {
        if steps < i + 2 {
          return false;
        }
        partial := Some(partial.value + [text[i]]);
        assert text[..i + 1] == text[..i] + [text[i]];
      }
      assert text[..|text|] == text;
      if steps < |text| + 2 {
        return false;
      }
      file, partial := partial, None;
      finished := true;
    }

    method Forget()
      requires Valid()
      modifies this`file
      ensures Valid() && file == After(codec, old(file), Forgetting) && Stored() == None
    {
      file := None;
    }
  }
}
