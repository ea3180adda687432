/**
 * The sheet loader's pure side: the CSV text a published sheet returns is cut
 * into lines, the first line gives the column names (normalised to
 * `[a-z0-9_]` identifiers), every further line becomes an object with one text
 * property per column, and the transforms turn those objects into the
 * application's records with their defaults. Fetching the text, the regular
 * expression that cuts a line into fields and date parsing are parameters.
 */
module SheetsService {
  import opened Js
  import opened Seqs
  import opened JsObject
  import opened Types

  /** A parsed row: column name to the text of its cell. */
  type RawRow = Record<string>

  // ---------------------------------------------------------------------------
  // Column names

  const Bom: char := '\U{FEFF}'

  /** The characters a normalised column name is made of. */
  predicate IsKeyChar(c: char)
  {
    'a' <= c <= 'z' || '0' <= c <= '9' || c == '_'
  }

  predicate NoDoubleUnderscore(s: string)
  {
    forall i, j :: 0 <= i < |s| && i < j < |s| && j == i + 1 ==> !(s[i] == '_' && s[j] == '_')
  }

  /** Only `[a-z0-9_]`, never two underscores in a row, never a trailing underscore. */
  predicate IsCleanKey(k: string)
  {
    (forall i :: 0 <= i < |k| ==> IsKeyChar(k[i]))
    && NoDoubleUnderscore(k)
    && (k == [] || k[|k| - 1] != '_')
  }

  /** `.replace(/^"|"$/g, '')`: one quote off the front and one off the back. */
  function StripQuotes(s: string): (r: string)
    ensures |r| <= |s|
    ensures |s| >= 2 && s[0] == '"' && s[|s| - 1] == '"' ==> r == s[1..|s| - 1]
    ensures |s| >= 1 && s[0] == '"' && s[|s| - 1] != '"' ==> r == s[1..]
    ensures |s| >= 1 && s[0] != '"' && s[|s| - 1] == '"' ==> r == s[..|s| - 1]
    ensures s == "\"" ==> r == ""
  {
    var t := if |s| > 0 && s[0] == '"' then s[1..] else s;
    if |t| > 0 && t[|t| - 1] == '"' then t[..|t| - 1] else t
  }

  /** `.replace(/﻿/g, '')` */
  function RemoveBom(s: string): (r: string)
    ensures Bom !in r
    ensures forall c :: c in r ==> c in s
  {
    if s == [] then []
    else (if s[0] == Bom then [] else [s[0]]) + RemoveBom(s[1..])
  }

  /** `.replace(/[^a-z0-9_]/g, '_')` */
  function ReplaceInvalid(s: string): (r: string)
    ensures |r| == |s|
    ensures forall i :: 0 <= i < |s| ==> IsKeyChar(r[i]) && (IsKeyChar(s[i]) ==> r[i] == s[i])
  {
    seq(|s|, i requires 0 <= i < |s| => if IsKeyChar(s[i]) then s[i] else '_')
  }

  /** `.replace(/_+/g, '_')`: every run of underscores becomes one. */
  function CollapseUnderscores(s: string): (r: string)
    ensures (r == []) == (s == [])
    ensures r != [] ==> r[0] == s[0]
    ensures forall c :: c in r ==> c in s
    ensures NoDoubleUnderscore(r)
  {
    if s == [] then []
    else if |s| >= 2 && s[0] == '_' && s[1] == '_' then CollapseUnderscores(s[1..])
    else
      var rest := CollapseUnderscores(s[1..]);
      assert rest != [] ==> rest[0] == s[1];
      [s[0]] + rest
  }

  /** `.replace(/_$/, '')` */
  function DropTrailingUnderscore(s: string): (r: string)
  {
    if |s| > 0 && s[|s| - 1] == '_' then s[..|s| - 1] else s
  }

  /** The character-by-character steps: trim, quotes, BOM, case, and invalid characters. */
  function PlainSteps(h: string): (r: string)
    ensures forall i :: 0 <= i < |r| ==> IsKeyChar(r[i])
  {
    ReplaceInvalid(ToLower(RemoveBom(StripQuotes(Trim(h)))))
  }

  /** The clean-up every header cell goes through: the plain steps, then the underscores. */
  function NormalizeHeader(h: string): (k: string)
    ensures IsCleanKey(k)
  {
    var collapsed := CollapseUnderscores(PlainSteps(h));
    CollapsedKeyChars(PlainSteps(h));
    DropTrailingClean(collapsed);
    DropTrailingUnderscore(collapsed)
  }

  lemma CollapsedKeyChars(s: string)
    requires forall i :: 0 <= i < |s| ==> IsKeyChar(s[i])
    ensures forall i :: 0 <= i < |CollapseUnderscores(s)| ==> IsKeyChar(CollapseUnderscores(s)[i])
  {
    var r := CollapseUnderscores(s);
    forall i | 0 <= i < |r|
      ensures IsKeyChar(r[i])
    {
      assert r[i] in s;
    }
  }

  /** Dropping a trailing underscore from a name without doubled underscores leaves a clean name. */
  lemma DropTrailingClean(s: string)
    requires forall i :: 0 <= i < |s| ==> IsKeyChar(s[i])
    requires NoDoubleUnderscore(s)
    ensures IsCleanKey(DropTrailingUnderscore(s))
  {
    var r := DropTrailingUnderscore(s);
    if |s| > 0 && s[|s| - 1] == '_' {
      assert r == s[..|s| - 1];
      if |r| > 0 {
        var i, j := |r| - 1, |s| - 1;
        assert 0 <= i < |s| && i < j < |s| && j == i + 1;
        assert r[i] == s[i];
      }
      forall i, j | 0 <= i < |r| && i < j < |r| && j == i + 1
        ensures !(r[i] == '_' && r[j] == '_')
      {
        assert r[i] == s[i] && r[j] == s[j];
      }
    }
  }

  lemma {:induction false} RemoveBomOfClean(k: string)
    requires Bom !in k
    ensures RemoveBom(k) == k
  {
    if k != [] {
      RemoveBomOfClean(k[1..]);
      assert k == [k[0]] + k[1..];
    }
  }

  lemma {:induction false} CollapseOfClean(k: string)
    requires NoDoubleUnderscore(k)
    ensures CollapseUnderscores(k) == k
  {
    if k != [] {
      CollapseOfClean(k[1..]);
      assert k == [k[0]] + k[1..];
    }
  }

  lemma KeyCharIsPlain(c: char)
    requires IsKeyChar(c)
    ensures !IsWhiteSpace(c) && c != '"' && c != Bom && LowerChar(c) == c
  {
  }

  lemma KeyCharsTrimmed(k: string)
    requires forall i :: 0 <= i < |k| ==> IsKeyChar(k[i])
    ensures Trim(k) == k && StripQuotes(k) == k && Bom !in k
  {
    if k != [] {
      KeyCharIsPlain(k[0]);
      KeyCharIsPlain(k[|k| - 1]);
      TrimOfTrimmed(k);
      StripQuotesOfUnquoted(k);
    }
    forall i | 0 <= i < |k|
      ensures k[i] != Bom
    {
      KeyCharIsPlain(k[i]);
    }
  }

  lemma KeyCharsLower(k: string)
    requires forall i :: 0 <= i < |k| ==> IsKeyChar(k[i])
    ensures ToLower(k) == k && ReplaceInvalid(k) == k
  {
    forall i | 0 <= i < |k|
      ensures LowerChar(k[i]) == k[i]
    {
      KeyCharIsPlain(k[i]);
    }
  }

  /** The steps before the underscores are dealt with leave a name made of key characters alone. */
  lemma PlainStepsOfKeyChars(k: string)
    requires forall i :: 0 <= i < |k| ==> IsKeyChar(k[i])
    ensures PlainSteps(k) == k
  {
    calc {
      PlainSteps(k);
      ReplaceInvalid(ToLower(RemoveBom(StripQuotes(Trim(k)))));
      { KeyCharsTrimmed(k); }
      ReplaceInvalid(ToLower(RemoveBom(k)));
      { KeyCharsTrimmed(k); RemoveBomOfClean(k); }
      ReplaceInvalid(ToLower(k));
      { KeyCharsLower(k); }
      k;
    }
  }

  /** A name that is already clean comes through normalisation unchanged. */
  lemma NormalizeClean(k: string)
    requires IsCleanKey(k)
    ensures NormalizeHeader(k) == k
  {
    calc {
      NormalizeHeader(k);
      DropTrailingUnderscore(CollapseUnderscores(PlainSteps(k)));
      { PlainStepsOfKeyChars(k); }
      DropTrailingUnderscore(CollapseUnderscores(k));
      { CollapseOfClean(k); }
      DropTrailingUnderscore(k);
      k;
    }
  }

  /** Normalising twice is normalising once. */
  lemma NormalizeIdempotent(h: string)
    ensures NormalizeHeader(NormalizeHeader(h)) == NormalizeHeader(h)
  {
    NormalizeClean(NormalizeHeader(h));
  }

  /**
   * A clean name followed by one stray character (a colon, a dash, an
   * accented letter...) loses it: `estado:` becomes `estado`.
   */
  lemma TrailingSymbolDropped(k: string, c: char)
    requires IsCleanKey(k) && k != []
    requires !IsKeyChar(LowerChar(c)) && !IsWhiteSpace(c) && c != '"'
    ensures NormalizeHeader(k + [c]) == k
  {
    calc {
      NormalizeHeader(k + [c]);
      DropTrailingUnderscore(CollapseUnderscores(PlainSteps(k + [c])));
      { StepsBeforeUnderscores(k, c); }
      DropTrailingUnderscore(CollapseUnderscores(k + ['_']));
      { UnderscoredNoDouble(k); CollapseOfClean(k + ['_']); }
      DropTrailingUnderscore(k + ['_']);
      { assert (k + ['_'])[..|k|] == k; }
      k;
    }
  }

  /** One underscore after a clean, non-empty name makes no doubled underscore. */
  lemma UnderscoredNoDouble(k: string)
    requires IsCleanKey(k) && k != []
    ensures NoDoubleUnderscore(k + ['_'])
  {
    var u := k + ['_'];
    forall i, j | 0 <= i < |u| && i < j < |u| && j == i + 1
      ensures !(u[i] == '_' && u[j] == '_')
    {
      assert u[i] == k[i];
      if j < |k| {
        assert u[j] == k[j];
      }
    }
  }

  lemma StepsBeforeUnderscores(k: string, c: char)
    requires forall i :: 0 <= i < |k| ==> IsKeyChar(k[i])
    requires k != [] && !IsKeyChar(LowerChar(c)) && !IsWhiteSpace(c) && c != '"'
    ensures PlainSteps(k + [c]) == k + ['_']
  {
    var s := k + [c];
    calc {
      PlainSteps(s);
      ReplaceInvalid(ToLower(RemoveBom(StripQuotes(Trim(s)))));
      { SuffixedTrimmed(k, c); }
      ReplaceInvalid(ToLower(RemoveBom(s)));
      { SuffixedNoBom(k, c); RemoveBomOfClean(s); }
      ReplaceInvalid(ToLower(s));
      { LowerThenReplace(k, c); }
      k + ['_'];
    }
  }

  lemma SuffixedTrimmed(k: string, c: char)
    requires k != [] && IsKeyChar(k[0]) && !IsWhiteSpace(c) && c != '"'
    ensures Trim(k + [c]) == k + [c] && StripQuotes(k + [c]) == k + [c]
  {
    var s := k + [c];
    KeyCharIsPlain(k[0]);
    assert s[0] == k[0] && s[|s| - 1] == c;
    TrimOfTrimmed(s);
    StripQuotesOfUnquoted(s);
  }

  lemma SuffixedNoBom(k: string, c: char)
    requires forall i :: 0 <= i < |k| ==> IsKeyChar(k[i])
    requires !IsWhiteSpace(c)
    ensures Bom !in k + [c]
  {
    KeyCharsTrimmed(k);
    assert IsWhiteSpace(Bom);
  }

  lemma StripQuotesOfUnquoted(s: string)
    requires s == [] || (s[0] != '"' && s[|s| - 1] != '"')
    ensures StripQuotes(s) == s
  {
  }

  /** A text wrapped in one pair of quotes, with no quote of its own at either end, comes out unwrapped. */
  lemma StripQuotesOfQuoted(w: string)
    requires w == [] || (w[0] != '"' && w[|w| - 1] != '"')
    ensures StripQuotes("\"" + w + "\"") == w
  {
    var q := "\"" + w + "\"";
    assert q[1..|q| - 1] == w;
  }

  /** A quoted header cell holding a clean name normalises to that name, not to one with underscores for the quotes. */
  lemma NormalizeQuoted(k: string)
    requires IsCleanKey(k)
    ensures NormalizeHeader("\"" + k + "\"") == k
  {
    var q := "\"" + k + "\"";
    calc {
      NormalizeHeader(q);
      DropTrailingUnderscore(CollapseUnderscores(PlainSteps(q)));
      { PlainStepsOfQuoted(k); }
      DropTrailingUnderscore(CollapseUnderscores(k));
      { CollapseOfClean(k); }
      DropTrailingUnderscore(k);
      k;
    }
  }

  /** The character steps unwrap a quoted run of key characters and leave the rest alone. */
  lemma PlainStepsOfQuoted(k: string)
    requires forall i :: 0 <= i < |k| ==> IsKeyChar(k[i])
    ensures PlainSteps("\"" + k + "\"") == k
  {
    var q := "\"" + k + "\"";
    if k != [] {
      KeyCharIsPlain(k[0]);
      KeyCharIsPlain(k[|k| - 1]);
    }
    calc {
      PlainSteps(q);
      ReplaceInvalid(ToLower(RemoveBom(StripQuotes(Trim(q)))));
      { assert q[0] == '"' && q[|q| - 1] == '"'; TrimOfTrimmed(q); }
      ReplaceInvalid(ToLower(RemoveBom(StripQuotes(q))));
      { StripQuotesOfQuoted(k); }
      ReplaceInvalid(ToLower(RemoveBom(k)));
      { KeyCharsTrimmed(k); }
      PlainSteps(k);
      { PlainStepsOfKeyChars(k); }
      k;
    }
  }

  lemma LowerThenReplace(k: string, c: char)
    requires forall i :: 0 <= i < |k| ==> IsKeyChar(k[i])
    requires !IsKeyChar(LowerChar(c))
    ensures ReplaceInvalid(ToLower(k + [c])) == k + ['_']
  {
    var lowered := ToLower(k + [c]);
    var r := ReplaceInvalid(lowered);
    forall i | 0 <= i < |k|
      ensures r[i] == k[i]
    {
      KeyCharIsPlain(k[i]);
      assert lowered[i] == k[i];
    }
    assert r[|k|] == '_';
  }

  // ---------------------------------------------------------------------------
  // Rows

  /** `s.substring(start, end)`: both ends clamped to the text, and swapped when reversed. */
  function Substring(s: string, start: int, end: int): string
  {
    var a := if start < 0 then 0 else if start > |s| then |s| else start;
    var b := if end < 0 then 0 else if end > |s| then |s| else end;
    if a <= b then s[a..b] else s[b..a]
  }

  const Quote := "\""

  /**
   * A cell that starts and ends with a quote loses the first and the last
   * character; a lone quote character stays as it is, since `substring(1, 0)`
   * is `substring(0, 1)`.
   */
  function Unquote(t: string): (v: string)
    ensures |t| >= 2 && t[0] == '"' && t[|t| - 1] == '"' ==> v == t[1..|t| - 1]
    ensures !(|t| >= 2 && t[0] == '"' && t[|t| - 1] == '"') ==> v == t
  {
    assert StartsWith(t, Quote) <==> |t| >= 1 && t[0] == '"';
    assert EndsWith(t, Quote) <==> |t| >= 1 && t[|t| - 1] == '"';
    if StartsWith(t, Quote) && EndsWith(t, Quote) then Substring(t, 1, |t| - 1) else t
  }

  /** `(values[i] || '').trim()` without its quotes: a missing cell is empty. */
  function CellValue(values: seq<string>, i: nat): (v: string)
    ensures i >= |values| ==> v == ""
    ensures i < |values| ==> v == Unquote(Trim(values[i]))
  {
    TrimOfTrimmed("");
    Unquote(Trim(if i < |values| then values[i] else ""))
  }

  /** The cell text of every column of a line, `CellValue` column by column. */
  function Cells(values: seq<string>, n: nat): (cells: seq<string>)
    ensures |cells| == n && forall i :: 0 <= i < n ==> cells[i] == CellValue(values, i)
  {
    seq(n, i requires 0 <= i < n => CellValue(values, i))
  }

  /** The object `header.forEach` builds: one property per column, a repeated column written again. */
  function Entry(headers: seq<string>, values: seq<string>): RawRow
  {
    if headers == [] then []
    else Put(Entry(headers[..|headers| - 1], values), headers[|headers| - 1], CellValue(values, |headers| - 1))
  }

  /** The loop over the columns that fills one row's object. */
  method BuildEntry(headers: seq<string>, values: seq<string>) returns (entry: RawRow)
    ensures entry == Entry(headers, values)
  {
    entry := [];
    for i := 0 to |headers|
      invariant entry == Entry(headers[..i], values)
    {
      var value := CellValue(values, i);
      assert headers[..i + 1][..i] == headers[..i];
      entry := Put(entry, headers[i], value);
    }
    assert headers[..|headers|] == headers;
  }

  /** A row's properties are the columns, each once, in the order they first appear. */
  lemma {:induction false} EntryKeys(headers: seq<string>, values: seq<string>)
    ensures Keys(Entry(headers, values)) == Distinct(headers)
  {
    if headers != [] {
      EntryKeys(headers[..|headers| - 1], values);
    }
  }

  /** The row object is the columns written in order with their cells. */
  lemma {:induction false} EntryIsPutAll(headers: seq<string>, values: seq<string>)
    ensures Entry(headers, values) == PutAll(headers, Cells(values, |headers|))
  {
    if headers != [] {
      var n := |headers| - 1;
      EntryIsPutAll(headers[..n], values);
      assert Cells(values, n + 1)[..n] == Cells(values, n);
    }
  }

  /** A column's property holds the cell under its last occurrence in the header. */
  lemma EntryValue(headers: seq<string>, values: seq<string>, j: nat)
    requires LastOccurrence(headers, j)
    ensures Get(Entry(headers, values), headers[j]) == Some(CellValue(values, j))
  {
    EntryIsPutAll(headers, values);
    PutAllValue(headers, Cells(values, |headers|), j);
  }

  /** `csvText.trim().split('\n')` */
  function Lines(csvText: string): seq<string>
  {
    Split(Trim(csvText), '\n')
  }

  /** The normalised column names of the header line. */
  function HeaderOf(line: string, tokenize: string -> seq<string>): (headers: seq<string>)
    ensures forall i :: 0 <= i < |headers| ==> IsCleanKey(headers[i])
  {
    MapSeq(tokenize(line), NormalizeHeader)
  }

  /** `rows.map(...)`: one object per data line, in order. */
  function EntriesOf(headers: seq<string>, rows: seq<string>, tokenize: string -> seq<string>): (entries: seq<RawRow>)
    ensures |entries| == |rows|
    ensures forall i :: 0 <= i < |rows| ==> entries[i] == Entry(headers, tokenize(rows[i]))
  {
    if rows == [] then []
    else EntriesOf(headers, rows[..|rows| - 1], tokenize) + [Entry(headers, tokenize(rows[|rows| - 1]))]
  }

  /**
   * `parseCSV`: nothing for a text of fewer than two lines; otherwise one
   * object per line after the header, built from that line's cells.
   */
  function ParseCsv(csvText: string, tokenize: string -> seq<string>): (rows: seq<RawRow>)
    ensures |Lines(csvText)| < 2 ==> rows == []
    ensures |Lines(csvText)| >= 2 ==>
      |rows| == |Lines(csvText)| - 1
      && forall i :: 0 <= i < |rows| ==>
        rows[i] == Entry(HeaderOf(Lines(csvText)[0], tokenize), tokenize(Lines(csvText)[i + 1]))
  {
    var lines := Lines(csvText);
    if |lines| < 2 then []
    else EntriesOf(HeaderOf(lines[0], tokenize), lines[1..], tokenize)
  }

  /**
   * Every parsed row has exactly the header's columns as properties, and a
   * column named once holds its cell.
   */
  lemma ParsedRow(csvText: string, tokenize: string -> seq<string>, i: nat, j: nat)
    requires i < |ParseCsv(csvText, tokenize)|
    ensures var headers := HeaderOf(Lines(csvText)[0], tokenize);
      Keys(ParseCsv(csvText, tokenize)[i]) == Distinct(headers)
      && (j < |headers| && (forall m :: j < m < |headers| ==> headers[m] != headers[j]) ==>
        Get(ParseCsv(csvText, tokenize)[i], headers[j]) == Some(CellValue(tokenize(Lines(csvText)[i + 1]), j)))
  {
    var lines := Lines(csvText);
    var headers := HeaderOf(lines[0], tokenize);
    EntryKeys(headers, tokenize(lines[i + 1]));
    if LastOccurrence(headers, j) {
      EntryValue(headers, tokenize(lines[i + 1]), j);
    }
  }

  // ---------------------------------------------------------------------------
  // Records

  const UsuarioIdKey := "usuario_id"
  const NombreKey := "nombre"
  const EmailKey := "email"
  const ClaveHashKey := "clave_hash"
  const RolOtorgadorKey := "rol_otorgador"
  const RolKey := "rol"
  const EstadoKey := "estado"
  const FechaCreacionKey := "fecha_creacion"
  const PuntosAnterioresKey := "puntos_anteriores"
  const AplausoIdKey := "aplauso_id"
  const OtorganteIdKey := "otorgante_id"
  const ReceptorIdKey := "receptor_id"
  const PrincipioKey := "principio"
  const MotivoKey := "motivo"
  const FechaKey := "fecha"
  const RecompensaIdKey := "recompensa_id"
  const DescripcionKey := "descripcion"
  const NivelRequeridoKey := "nivel_requerido"
  const ImagenUrlKey := "imagen_url"
  const StockKey := "stock"
  const PuntosCostoKey := "puntos_costo"
  const CanjeIdKey := "canje_id"
  const PuntosRequeridosKey := "puntos_requeridos"
  const PuntosPreviosKey := "puntos_previos"
  const PuntosRestantesKey := "puntos_restantes"
  const ComprobantePdfUrlKey := "comprobante_pdf_url"
  const ObservacionesKey := "observaciones"

  const AdministradorRole := "administrador"
  const AdminRole := "admin"
  const ColaboradorRole := "colaborador"
  const LectorRole := "lector"
  const ActivoStatus := "activo"
  const ZeroText := "0"

  /** `String(x || fallback)` for a property that is text or missing: missing and empty give the fallback. */
  function TextOr(v: Option<string>, fallback: string): (t: string)
    ensures v.None? ==> t == fallback
    ensures v.Some? ==> t == if v.value == "" then fallback else v.value
  {
    if v.Some? && v.value != "" then v.value else fallback
  }

  /** `(user.rol_otorgador || user.rol || '').toLowerCase().trim()` */
  function RawRole(row: RawRow): string
  {
    Trim(ToLower(TextOr(Get(row, RolOtorgadorKey), TextOr(Get(row, RolKey), ""))))
  }

  /** The role a raw role name maps to; any name that is not recognised grants applause. */
  function RoleOf(raw: string): (role: Role)
    ensures role == Admin <==> raw == AdministradorRole || raw == AdminRole
    ensures role == Colaborador <==> raw == ColaboradorRole || raw == LectorRole || raw == ""
    ensures role == Otorgador <==>
      raw !in [AdministradorRole, AdminRole, ColaboradorRole, LectorRole, ""]
  {
    if raw == AdministradorRole || raw == AdminRole then Admin
    else if raw == ColaboradorRole || raw == LectorRole || raw == "" then Colaborador
    else Otorgador
  }

  /** `Number(x) || 0`: a missing property is NaN, and NaN becomes 0. */
  function NumberOr0(v: Option<string>): (n: int)
    ensures v.None? ==> n == 0
    ensures v.Some? ==> n == if NumberOf(v.value).Some? then NumberOf(v.value).value else 0
  {
    match v
    case None => 0
    case Some(s) => OrElse(NumberOf(s), 0)
  }

  /** One user of the users sheet; `nowIso` is the moment of loading, used when no creation date is given. */
  function TransformUser(row: RawRow, nowIso: string): (u: User)
    ensures u.usuarioId == TextOr(Get(row, UsuarioIdKey), "")
    ensures u.nombre == TextOr(Get(row, NombreKey), "")
    ensures u.email == TextOr(Get(row, EmailKey), "")
    ensures u.claveHash == TextOr(Get(row, ClaveHashKey), "")
    ensures u.rol == RoleOf(RawRole(row))
    ensures u.estado == Activo <==> ToLower(TextOr(Get(row, EstadoKey), "")) == ActivoStatus
    ensures u.fechaCreacion == TextOr(Get(row, FechaCreacionKey), nowIso)
    ensures u.puntosAnteriores == NumberOr0(Get(row, PuntosAnterioresKey))
  {
    User(
      usuarioId := TextOr(Get(row, UsuarioIdKey), ""),
      nombre := TextOr(Get(row, NombreKey), ""),
      email := TextOr(Get(row, EmailKey), ""),
      estado := if ToLower(TextOr(Get(row, EstadoKey), "")) == ActivoStatus then Activo else Inactivo,
      rol := RoleOf(RawRole(row)),
      claveHash := TextOr(Get(row, ClaveHashKey), ""),
      fechaCreacion := TextOr(Get(row, FechaCreacionKey), nowIso),
      puntosAnteriores := NumberOr0(Get(row, PuntosAnterioresKey)))
  }

  /** `transformUsers` */
  function TransformUsers(rows: seq<RawRow>, nowIso: string): (users: seq<User>)
    ensures |users| == |rows|
    ensures forall i :: 0 <= i < |rows| ==> users[i] == TransformUser(rows[i], nowIso)
  {
    if rows == [] then [] else [TransformUser(rows[0], nowIso)] + TransformUsers(rows[1..], nowIso)
  }

  /** A non-empty `rol_otorgador` decides the role; `rol` is then never looked at. */
  lemma RolOtorgadorPreferred(row: RawRow, rol: string)
    requires RolOtorgadorKey != RolKey
    requires Get(row, RolOtorgadorKey).Some? && Get(row, RolOtorgadorKey).value != ""
    ensures RawRole(Put(row, RolKey, rol)) == RawRole(row)
  {
    GetPut(row, RolKey, rol, RolOtorgadorKey);
  }

  /** With neither role column filled in, a user is a plain collaborator. */
  lemma NoRoleIsColaborador(row: RawRow, nowIso: string)
    requires TextOr(Get(row, RolOtorgadorKey), "") == "" && TextOr(Get(row, RolKey), "") == ""
    ensures TransformUser(row, nowIso).rol == Colaborador
  {
    assert ToLower("") == "";
  }

  /** The status is compared without trimming: `" activo"` with a leading space is inactive. */
  lemma PaddedStatusInactive(row: RawRow, nowIso: string, s: string)
    requires Get(row, EstadoKey) == Some(" " + s)
    ensures TransformUser(row, nowIso).estado == Inactivo
  {
    var t := ToLower(" " + s);
    assert t[0] == ' ';
  }

  /** `new Date(x)` read back with `toISOString()`, or None where `parseDateString` gives null. */
  type DateParser = string -> Option<string>

  /** `parsedDate ? parsedDate.toISOString() : String(fecha || '')`; a missing or empty date is never parsed. */
  function DateText(v: Option<string>, parseDate: DateParser): (d: string)
    ensures v.None? || v.value == "" ==> d == ""
    ensures v.Some? && v.value != "" ==> d == if parseDate(v.value).Some? then parseDate(v.value).value else v.value
  {
    match v
    case None => ""
    case Some(s) =>
      if s == "" then ""
      else match parseDate(s)
        case Some(iso) => iso
        case None => s
  }

  /** One applause of the applause sheet. */
  function TransformApplause(row: RawRow, parseDate: DateParser): (a: Applause)
    ensures a.aplausoId == TextOr(Get(row, AplausoIdKey), "")
    ensures a.otorganteId == TextOr(Get(row, OtorganteIdKey), "")
    ensures a.receptorId == TextOr(Get(row, ReceptorIdKey), "")
    ensures a.principio == TextOr(Get(row, PrincipioKey), "")
    ensures a.motivo == TextOr(Get(row, MotivoKey), "")
    ensures a.fecha == DateText(Get(row, FechaKey), parseDate)
  {
    Applause(
      aplausoId := TextOr(Get(row, AplausoIdKey), ""),
      otorganteId := TextOr(Get(row, OtorganteIdKey), ""),
      receptorId := TextOr(Get(row, ReceptorIdKey), ""),
      principio := TextOr(Get(row, PrincipioKey), ""),
      motivo := TextOr(Get(row, MotivoKey), ""),
      fecha := DateText(Get(row, FechaKey), parseDate))
  }

  /** One reward of the rewards sheet: the id is trimmed, level, stock and cost default to `'0'`. */
  function TransformReward(row: RawRow): (r: Reward)
    ensures r.recompensaId == Trim(TextOr(Get(row, RecompensaIdKey), ""))
    ensures r.nombre == TextOr(Get(row, NombreKey), "")
    ensures r.descripcion == TextOr(Get(row, DescripcionKey), "")
    ensures r.nivelRequerido == TextOr(Get(row, NivelRequeridoKey), ZeroText)
    ensures r.imagenUrl == TextOr(Get(row, ImagenUrlKey), "")
    ensures r.stock == TextOr(Get(row, StockKey), ZeroText)
    ensures r.puntosCosto == TextOr(Get(row, PuntosCostoKey), ZeroText)
    ensures r.nivelRequerido != "" && r.stock != "" && r.puntosCosto != ""
  {
    Reward(
      recompensaId := Trim(TextOr(Get(row, RecompensaIdKey), "")),
      nombre := TextOr(Get(row, NombreKey), ""),
      descripcion := TextOr(Get(row, DescripcionKey), ""),
      nivelRequerido := TextOr(Get(row, NivelRequeridoKey), ZeroText),
      imagenUrl := TextOr(Get(row, ImagenUrlKey), ""),
      stock := TextOr(Get(row, StockKey), ZeroText),
      puntosCosto := TextOr(Get(row, PuntosCostoKey), ZeroText))
  }

  /** One redemption of the redemptions sheet: the reward id is trimmed, the optional columns pass through. */
  function TransformRedemption(row: RawRow, parseDate: DateParser): (r: Redemption)
    ensures r.canjeId == TextOr(Get(row, CanjeIdKey), "")
    ensures r.usuarioId == TextOr(Get(row, UsuarioIdKey), "")
    ensures r.recompensaId == Trim(TextOr(Get(row, RecompensaIdKey), ""))
    ensures r.fecha == DateText(Get(row, FechaKey), parseDate)
    ensures r.nivelRequerido == Get(row, NivelRequeridoKey) && r.estado == Get(row, EstadoKey)
    ensures r.puntosRequeridos == Get(row, PuntosRequeridosKey)
    ensures r.puntosPrevios == Get(row, PuntosPreviosKey)
    ensures r.puntosRestantes == Get(row, PuntosRestantesKey)
    ensures r.comprobantePdfUrl == Get(row, ComprobantePdfUrlKey)
    ensures r.observaciones == Get(row, ObservacionesKey)
  {
    Redemption(
      canjeId := TextOr(Get(row, CanjeIdKey), ""),
      usuarioId := TextOr(Get(row, UsuarioIdKey), ""),
      recompensaId := Trim(TextOr(Get(row, RecompensaIdKey), "")),
      fecha := DateText(Get(row, FechaKey), parseDate),
      nivelRequerido := Get(row, NivelRequeridoKey),
      puntosRequeridos := Get(row, PuntosRequeridosKey),
      puntosPrevios := Get(row, PuntosPreviosKey),
      puntosRestantes := Get(row, PuntosRestantesKey),
      estado := Get(row, EstadoKey),
      comprobantePdfUrl := Get(row, ComprobantePdfUrlKey),
      observaciones := Get(row, ObservacionesKey))
  }

  lemma TrimIdempotent(s: string)
    ensures Trim(Trim(s)) == Trim(s)
  {
    var t := TrimStart(s);
    var r := TrimEnd(t);
    assert Trim(s) == r;
    if r != [] {
      assert r == t[..|r|];
      assert r[0] == t[0];
    }
    TrimOfTrimmed(r);
  }

  /**
   * Ids written with surrounding spaces in either sheet still match: a
   * redemption and a reward whose ids differ only by surrounding white space
   * carry the same reward id, and that id has none left.
   */
  lemma RewardIdsMatchAfterTrim(rewardRow: RawRow, redemptionRow: RawRow, parseDate: DateParser)
    requires Trim(TextOr(Get(rewardRow, RecompensaIdKey), "")) == Trim(TextOr(Get(redemptionRow, RecompensaIdKey), ""))
    ensures TransformReward(rewardRow).recompensaId == TransformRedemption(redemptionRow, parseDate).recompensaId
    ensures Trim(TransformReward(rewardRow).recompensaId) == TransformReward(rewardRow).recompensaId
  {
    TrimIdempotent(TextOr(Get(rewardRow, RecompensaIdKey), ""));
  }
}
