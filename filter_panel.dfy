/**
 * The advanced-filter panel: an eight-field record of search criteria, each
 * field a string that is empty while unset, edited one field at a time,
 * cleared all at once and handed over unchanged when the user searches. The
 * record updates are functions; the component's `filters` state cell is the
 * field of the class `FilterPanel`.
 */
module FilterPanel {

  /** The keys of `FilterState`. */
  datatype FilterKey =
    | NumeroDiario | NumeroRecibo | NumeroNorma | TipoEdicion
    | TipoNorma | EntidadEmisora | FechaDesde | FechaHasta

  datatype FilterState = FilterState(
    numeroDiario: string,
    numeroRecibo: string,
    numeroNorma: string,
    tipoEdicion: string,
    tipoNorma: string,
    entidadEmisora: string,
    fechaDesde: string,
    fechaHasta: string)

  /** `filters[key]`. */
  function Get(f: FilterState, key: FilterKey): string {
    match key
    case NumeroDiario => f.numeroDiario
    case NumeroRecibo => f.numeroRecibo
    case NumeroNorma => f.numeroNorma
    case TipoEdicion => f.tipoEdicion
    case TipoNorma => f.tipoNorma
    case EntidadEmisora => f.entidadEmisora
    case FechaDesde => f.fechaDesde
    case FechaHasta => f.fechaHasta
  }

  /** Two records are equal exactly when they agree on every key. */
  lemma Extensionality(f: FilterState, g: FilterState)
    ensures f == g <==> forall key :: Get(f, key) == Get(g, key)
  {
    if forall key :: Get(f, key) == Get(g, key) {
      assert Get(f, NumeroDiario) == Get(g, NumeroDiario);
      assert Get(f, NumeroRecibo) == Get(g, NumeroRecibo);
      assert Get(f, NumeroNorma) == Get(g, NumeroNorma);
      assert Get(f, TipoEdicion) == Get(g, TipoEdicion);
      assert Get(f, TipoNorma) == Get(g, TipoNorma);
      assert Get(f, EntidadEmisora) == Get(g, EntidadEmisora);
      assert Get(f, FechaDesde) == Get(g, FechaDesde);
      assert Get(f, FechaHasta) == Get(g, FechaHasta);
    }
  }

  /** The record both `useState` and `handleClear` start from: every field empty. */
  function EmptyFilters(): (r: FilterState)
    ensures forall key :: Get(r, key) == ""
  {
    FilterState("", "", "", "", "", "", "", "")
  }

  /** `{ ...prev, [key]: value }`: `key` holds `value`, every other key keeps its value. */
  function With(f: FilterState, key: FilterKey, value: string): (r: FilterState)
    ensures Get(r, key) == value
    ensures forall other :: other != key ==> Get(r, other) == Get(f, other)
  {
    match key
    case NumeroDiario => f.(numeroDiario := value)
    case NumeroRecibo => f.(numeroRecibo := value)
    case NumeroNorma => f.(numeroNorma := value)
    case TipoEdicion => f.(tipoEdicion := value)
    case TipoNorma => f.(tipoNorma := value)
    case EntidadEmisora => f.(entidadEmisora := value)
    case FechaDesde => f.(fechaDesde := value)
    case FechaHasta => f.(fechaHasta := value)
  }

  /** Of two writes to the same key the last one wins. */
  lemma LastWriteWins(f: FilterState, key: FilterKey, first: string, second: string)
    ensures With(With(f, key, first), key, second) == With(f, key, second)
  {
  }

  /** Writes to different keys commute. */
  lemma WritesCommute(f: FilterState, k1: FilterKey, v1: string, k2: FilterKey, v2: string)
    requires k1 != k2
    ensures With(With(f, k1, v1), k2, v2) == With(With(f, k2, v2), k1, v1)
  {
  }

  /** Writing back the value a key already holds changes nothing. */
  lemma WriteSameValue(f: FilterState, key: FilterKey)
    ensures With(f, key, Get(f, key)) == f
  {
  }

  /** The keys whose fields are set (non-empty). */
  function Populated(f: FilterState): (keys: set<FilterKey>)
    ensures forall key :: key in keys <==> Get(f, key) != ""
  {
    set key: FilterKey | Get(f, key) != ""
  }

  /** Writing a non-empty value to a cleared record, then another to a second key, sets exactly those two keys. */
  lemma TwoWritesFromEmpty(k1: FilterKey, v1: string, k2: FilterKey, v2: string)
    requires k1 != k2 && v1 != "" && v2 != ""
    ensures Populated(With(With(EmptyFilters(), k1, v1), k2, v2)) == {k1, k2}
  {
  }

  predicate NoDuplicates(s: seq<string>) {
    forall i, j :: 0 <= i < j < |s| ==> s[i] != s[j]
  }

  /** No entry at a position in [lo, hi) is repeated later in the list. */
  predicate RowsDistinct(s: seq<string>, lo: nat, hi: nat) {
    forall i, j :: lo <= i < hi && i < j < |s| ==> s[i] != s[j]
  }

  /** The options of the edition-type select. */
  const TiposEdicion: seq<string> := ["Ordinaria", "Extraordinaria", "Especial", "Oficio Tributario"]

  /** The options of the norm-type select. */
  const TiposNorma: seq<string> := [
    "ACTA", "ACUERDO", "AUTO", "CONCEPTO", "CONTRATO", "CONVENIO",
    "CONVOCATORIA", "DECRETO", "DIRECTIVA", "DISPOSICIÓN", "ESTATUTO",
    "FALLO", "INSTRUCCIÓN", "LEY", "ORDENANZA", "ORDEN", "PLAN",
    "PLIEGO", "PROVIDENCIA", "PROYECTO", "REGLAMENTO", "RESOLUCIÓN",
    "RESOLUCIÓN EJECUTIVA", "SENTENCIA"]

  /** The options of the issuing-entity select. */
  const Entidades: seq<string> := [
    "Presidencia de la República",
    "Ministerio del Interior",
    "Ministerio de Hacienda",
    "Ministerio de Justicia",
    "Ministerio de Defensa",
    "Ministerio de Educación",
    "Ministerio de Salud",
    "Ministerio de Trabajo",
    "Ministerio de Agricultura",
    "Ministerio de Comercio",
    "Ministerio de Ambiente",
    "Ministerio de Transporte",
    "Ministerio de Tecnologías",
    "Ministerio de Cultura",
    "Ministerio de Vivienda",
    "Ministerio de Minas"]

  // Every option is used as its own React key, which is sound because no list repeats an entry.

  lemma TiposEdicionDistinct()
    ensures NoDuplicates(TiposEdicion)
  {
  }

  lemma TiposNormaDistinct()
    ensures NoDuplicates(TiposNorma)
  {
    TiposNormaRows0To6();
    TiposNormaRows6To12();
    TiposNormaRows12To18();
    TiposNormaRows18To24();
  }

  lemma TiposNormaRows0To6() ensures RowsDistinct(TiposNorma, 0, 6) {}
  lemma TiposNormaRows6To12() ensures RowsDistinct(TiposNorma, 6, 12) {}
  lemma TiposNormaRows12To18() ensures RowsDistinct(TiposNorma, 12, 18) {}
  lemma TiposNormaRows18To24() ensures RowsDistinct(TiposNorma, 18, 24) {}

  lemma EntidadesDistinct()
    ensures NoDuplicates(Entidades)
  {
  }

  /** The component's `filters` state cell. */
  class FilterPanel {
    var filters: FilterState

    constructor ()
      ensures filters == EmptyFilters()
    {
      filters := EmptyFilters();
    }

    /** `handleFilterChange(key, value)`: overwrites the one field. */
    method HandleFilterChange(key: FilterKey, value: string)
      modifies this
      ensures filters == With(old(filters), key, value)
      ensures Get(filters, key) == value
      ensures forall other :: other != key ==> Get(filters, other) == Get(old(filters), other)
    {
      filters := With(filters, key, value);
    }

    /** `handleClear`: back to the initial record from any state. */
    method HandleClear()
      modifies this
      ensures filters == EmptyFilters()
      ensures forall key :: Get(filters, key) == ""
    {
      filters := EmptyFilters();
    }

    /** `handleSearch`: hands on (logs) the current criteria and changes nothing. */
    method HandleSearch() returns (snapshot: FilterState)
      ensures snapshot == filters
      ensures forall key :: Get(snapshot, key) == Get(filters, key)
    {
      snapshot := filters;
    }
  }

  /** Clearing twice is the same as clearing once. */
  method HandleClearTwice(p: FilterPanel)
    modifies p
    ensures p.filters == EmptyFilters()
  {
    p.HandleClear();
    p.HandleClear();
  }
}
