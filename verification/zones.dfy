/**
 * The zone directory (lib/zones.ts): market commentary for the twelve named
 * neighbourhoods of A Coruña, a generic default, and a total lookup.
 */
module Zones {
  import opened Types

  /** The entries of the `zones` object literal, in declaration order. */
  const ZoneEntries: seq<(string, ZoneInfo)> := [
    ("Monte Alto", ZoneInfo(
      "Zona consolidada con demanda estable y perfiles de comprador solvente.",
      "Las viviendas bien mantenidas tienen buena salida en el mercado actual, especialmente con vistas al mar.",
      "La oferta es limitada; si el precio no es competitivo, puede alargarse el tiempo de venta.")),
    ("Los Rosales", ZoneInfo(
      "Barrio familiar con buena conectividad y demanda creciente entre familias jóvenes.",
      "El mercado muestra interés sostenido en inmuebles de mediano tamaño bien comunicados.",
      "La competencia con obra nueva en zonas limítrofes puede influir en el tiempo de venta.")),
    ("Matogrande", ZoneInfo(
      "Zona residencial consolidada con perfil de comprador estable.",
      "Alta demanda de pisos amplios por parte de familias que priorizan calidad de vida y servicios cercanos.",
      "La renovación de la vivienda puede ser determinante para destacar frente a inmuebles más modernos.")),
    ("Elviña", ZoneInfo(
      "Área en transformación con creciente interés por su proximidad al campus universitario.",
      "Demanda constante de perfil inversor y comprador joven con visión a medio plazo.",
      "El mercado puede ser más sensible al precio que en zonas más céntricas de la ciudad.")),
    ("Centro", ZoneInfo(
      "Alta rotación y demanda activa impulsada por la centralidad y los servicios.",
      "Inmuebles únicos o con características singulares tienen un comprador específico dispuesto a valorarlos.",
      "La variabilidad de precios es elevada según la calle y el estado de conservación del inmueble.")),
    ("Cuatro Caminos", ZoneInfo(
      "Zona céntrica con alta densidad y demanda diversa y activa.",
      "Buena liquidez del mercado para viviendas bien posicionadas en precio.",
      "La concentración de oferta puede requerir estrategias de diferenciación para cerrar ventas con agilidad.")),
    ("Riazor", ZoneInfo(
      "Demanda sostenida impulsada por el entorno costero y el acceso a servicios y ocio.",
      "Perfil de comprador con capacidad adquisitiva interesado en calidad de vida y entorno.",
      "Las expectativas de precio son elevadas, lo que requiere una valoración muy precisa para no desviar la demanda.")),
    ("Labañou", ZoneInfo(
      "Barrio residencial tranquilo con demanda familiar estable.",
      "Buenas condiciones para una venta ordenada en un mercado sólido y sin grandes sobresaltos.",
      "La percepción de menor dinamismo comercial puede ser un freno para ciertos perfiles de comprador.")),
    ("Agra do Orzán", ZoneInfo(
      "Zona con demanda activa y precios más accesibles que en otras áreas céntricas.",
      "Atractiva para compradores primerizos e inversores por su relación precio-ubicación.",
      "El estado de conservación del inmueble tiene un impacto directo en el precio final obtenido.")),
    ("Mesoiro", ZoneInfo(
      "Área periférica con crecimiento residencial gradual.",
      "Interés creciente de familias que priorizan espacio y tranquilidad sobre la centralidad.",
      "La dependencia del vehículo privado puede limitar el perfil de comprador interesado.")),
    ("Eirís", ZoneInfo(
      "Zona en proceso de consolidación con demanda moderada.",
      "El precio de entrada más accesible atrae a un perfil de comprador en expansión.",
      "La percepción de ubicación periférica puede alargar el proceso de venta respecto a zonas más céntricas.")),
    ("Orillamar", ZoneInfo(
      "Barrio histórico con carácter propio y demanda de perfil cultural.",
      "Los inmuebles con encanto o rehabilitados tienen buena acogida entre compradores selectivos.",
      "El mercado es nicho y puede requerir más tiempo para encontrar al comprador adecuado."))
  ]

  /** The commentary for any zone outside the table. */
  const DefaultZoneInfo: ZoneInfo := ZoneInfo(
    "Zona con mercado activo y demanda sostenida en A Coruña.",
    "Hay interés real de compradores que buscan vivienda en tu área.",
    "Una valoración precisa es clave para no dejar dinero sobre la mesa.")

  /** An object literal: each entry binds its key, a later duplicate overriding an earlier one. */
  function TableOf(es: seq<(string, ZoneInfo)>): map<string, ZoneInfo> {
    if es == [] then map[] else TableOf(es[..|es| - 1])[es[|es| - 1].0 := es[|es| - 1].1]
  }

  /** `Object.keys`: the keys of an object literal, in declaration order. */
  function KeysOf(es: seq<(string, ZoneInfo)>): (r: seq<string>)
    ensures |r| == |es| && forall i :: 0 <= i < |es| ==> r[i] == es[i].0
  {
    seq(|es|, i requires 0 <= i < |es| => es[i].0)
  }

  /** `zones[zone] ?? DEFAULT_ZONE_INFO` over a given record. */
  function LookupZone(table: map<string, ZoneInfo>, zone: string): (r: ZoneInfo)
    ensures zone in table ==> r == table[zone]
    ensures zone !in table ==> r == DefaultZoneInfo
  {
    if zone in table then table[zone] else DefaultZoneInfo
  }

  /** The `zones` record. */
  const ZoneTable: map<string, ZoneInfo> := TableOf(ZoneEntries)

  /** `getZoneInfo`: the entry of the `zones` record for an exact key, otherwise the default; it never fails. */
  function GetZoneInfo(zone: string): (r: ZoneInfo)
    ensures zone !in ZoneNames ==> r == DefaultZoneInfo
    ensures forall i :: 0 <= i < |ZoneEntries| && ZoneEntries[i].0 == zone ==> r == ZoneEntries[i].1
    ensures Complete(r)
  {
    DirectoryLookup(zone);
    LookupZone(ZoneTable, zone)
  }

  /** `ZONE_NAMES`. */
  const ZoneNames: seq<string> := KeysOf(ZoneEntries)

  /** Commentary whose three sentences are all non-empty. */
  predicate Complete(i: ZoneInfo) {
    i.tendencia != [] && i.oportunidad != [] && i.alerta != []
  }

  /** No key is listed twice. */
  predicate Distinct(xs: seq<string>) {
    forall a, b :: 0 <= a < b < |xs| ==> xs[a] != xs[b]
  }

  // ---- object literals ----

  /** The keys of an object literal are exactly the keys it lists. */
  lemma {:induction false} TableKeys(es: seq<(string, ZoneInfo)>)
    ensures forall k :: k in TableOf(es) <==> k in KeysOf(es)
  {
    if es != [] {
      var init := es[..|es| - 1];
      TableKeys(init);
      assert forall k :: k in KeysOf(es) <==> k in KeysOf(init) || k == es[|es| - 1].0;
    }
  }

  /** Dropping the last entry keeps the other keys distinct, and the dropped key is not among them. */
  lemma DistinctInit(es: seq<(string, ZoneInfo)>)
    requires es != [] && Distinct(KeysOf(es))
    ensures Distinct(KeysOf(es[..|es| - 1]))
    ensures es[|es| - 1].0 !in KeysOf(es[..|es| - 1])
  {
    var init := es[..|es| - 1];
    assert forall i :: 0 <= i < |init| ==> KeysOf(init)[i] == KeysOf(es)[i];
  }

  /** With distinct keys the record has one key per entry. */
  lemma {:induction false} TableSize(es: seq<(string, ZoneInfo)>)
    requires Distinct(KeysOf(es))
    ensures |TableOf(es)| == |es|
  {
    if es != [] {
      var init := es[..|es| - 1];
      DistinctInit(es);
      TableSize(init);
      TableKeys(init);
    }
  }

  /** With distinct keys each key is bound to its own entry. */
  lemma {:induction false} TableEntry(es: seq<(string, ZoneInfo)>, i: nat)
    requires i < |es| && Distinct(KeysOf(es))
    ensures es[i].0 in TableOf(es) && TableOf(es)[es[i].0] == es[i].1
  {
    var init := es[..|es| - 1];
    if i < |es| - 1 {
      DistinctInit(es);
      TableEntry(init, i);
      assert init[i] == es[i];
      assert KeysOf(es)[i] != KeysOf(es)[|es| - 1];
    }
  }

  /** Every value of an object literal is the value of one of its entries. */
  lemma {:induction false} TableValues(es: seq<(string, ZoneInfo)>, k: string)
    requires k in TableOf(es)
    ensures exists i :: 0 <= i < |es| && es[i].0 == k && TableOf(es)[k] == es[i].1
  {
    var init := es[..|es| - 1];
    if k != es[|es| - 1].0 {
      TableValues(init, k);
      var i :| 0 <= i < |init| && init[i].0 == k && TableOf(init)[k] == init[i].1;
      assert es[i] == init[i];
    } else {
      assert es[|es| - 1].0 == k;
    }
  }

  // ---- properties ----

  /** `ZONE_NAMES` spelled out. */
  lemma ZoneNamesListed()
    ensures ZoneNames == ["Monte Alto", "Los Rosales", "Matogrande", "Elviña", "Centro", "Cuatro Caminos",
                          "Riazor", "Labañou", "Agra do Orzán", "Mesoiro", "Eirís", "Orillamar"]
  {
  }

  lemma ListedNamesDistinct()
    ensures Distinct(["Monte Alto", "Los Rosales", "Matogrande", "Elviña", "Centro", "Cuatro Caminos",
                      "Riazor", "Labañou", "Agra do Orzán", "Mesoiro", "Eirís", "Orillamar"])
  {
  }

  /** `ZONE_NAMES` lists exactly the zones of the record, twelve of them, each once. */
  lemma ZoneNamesAreTheKeys()
    ensures forall k :: k in ZoneTable <==> k in ZoneNames
    ensures |ZoneTable| == |ZoneNames| == 12 && Distinct(ZoneNames)
  {
    ZoneNamesListed();
    ListedNamesDistinct();
    TableKeys(ZoneEntries);
    TableSize(ZoneEntries);
  }

  /** Every entry of the record carries three non-empty sentences, and so does the default. */
  lemma EntriesComplete()
    ensures forall i :: 0 <= i < |ZoneEntries| ==> Complete(ZoneEntries[i].1)
    ensures Complete(DefaultZoneInfo)
  {
  }

  /** Looking a zone up in the `zones` record: its own entry when listed, the default otherwise, never an incomplete commentary. */
  lemma DirectoryLookup(zone: string)
    ensures zone !in ZoneNames ==> LookupZone(ZoneTable, zone) == DefaultZoneInfo
    ensures forall i :: 0 <= i < |ZoneEntries| && ZoneEntries[i].0 == zone ==> LookupZone(ZoneTable, zone) == ZoneEntries[i].1
    ensures Complete(LookupZone(ZoneTable, zone))
  {
    ZoneNamesAreTheKeys();
    forall i | 0 <= i < |ZoneEntries| && ZoneEntries[i].0 == zone
      ensures LookupZone(ZoneTable, zone) == ZoneEntries[i].1
    {
      TableEntry(ZoneEntries, i);
    }
    EntriesComplete();
    if zone in ZoneTable {
      TableValues(ZoneEntries, zone);
    }
  }

  /** Every zone, named or not, gets three non-empty sentences. */
  lemma ZoneInfoComplete(zone: string)
    ensures Complete(GetZoneInfo(zone))
  {
  }

  /** A listed zone gets its own entry; any other string gets the default. */
  lemma ZoneInfoFromDirectory(zone: string, i: nat)
    requires i < |ZoneEntries|
    ensures zone !in ZoneNames ==> GetZoneInfo(zone) == DefaultZoneInfo
    ensures ZoneEntries[i].0 == zone ==> GetZoneInfo(zone) == ZoneEntries[i].1
  {
  }

  /** Neither a lower-case spelling nor a leading space is a listed name. */
  lemma NearMissesUnlisted(names: seq<string>)
    requires names == ["Monte Alto", "Los Rosales", "Matogrande", "Elviña", "Centro", "Cuatro Caminos",
                       "Riazor", "Labañou", "Agra do Orzán", "Mesoiro", "Eirís", "Orillamar"]
    ensures names[4] == "Centro" && "centro" !in names && " Centro" !in names
  {
  }

  /** The lookup is exact: a change of case or a stray space falls back to the default. */
  lemma LookupIsExact()
    ensures GetZoneInfo("Centro") == ZoneEntries[4].1
    ensures GetZoneInfo("centro") == DefaultZoneInfo
    ensures GetZoneInfo(" Centro") == DefaultZoneInfo
  {
    ZoneNamesListed();
    NearMissesUnlisted(ZoneNames);
    ZoneInfoFromDirectory("Centro", 4);
    ZoneInfoFromDirectory("centro", 4);
    ZoneInfoFromDirectory(" Centro", 4);
  }
}
