/** The component catalog as the secret walk sees it: which config fields are passwords, and how
    their paths are printed. */
module Catalog {
  import opened Prelude
  import opened Values
  import opened SecretWalk
  import Text

  // ---------------------------------------------------------------------
  // Schemas

  const LEAF := Schema(false, map[], None, None)

  const PASSWORD := Schema(true, map[], None, None)

  /** Any header name, every value a secret. */
  const HEADERS := Schema(false, map[], Some(PASSWORD), None)

  const LIST := Schema(false, map[], None, Some(LEAF))

  const LABELS := Schema(false, map[], Some(LEAF), None)

  function Record(leaves: set<string>, others: map<string, Schema>): Schema {
    Schema(false, (map k | k in leaves :: LEAF) + others, None, None)
  }

  function ListOf(s: Schema): Schema {
    Schema(false, map[], None, Some(s))
  }

  const TLS := Record({"insecure", "insecure_skip_verify"}, map[])

  const QUEUE := Record({"enabled", "queue_size"}, map[])

  const RETRY := Record({"enabled"}, map[])

  const OTLP := Record({"endpoint", "compression", "timeout"},
                       map["tls" := TLS, "headers" := HEADERS, "sending_queue" := QUEUE, "retry_on_failure" := RETRY])

  function ProcessorSchema(kind: string): Option<Schema> {
    if kind == "batch" then Some(Record({"timeout", "send_batch_size", "send_batch_max_size"}, map[]))
    else if kind == "memory_limiter" then
      Some(Record({"check_interval", "limit_percentage", "spike_limit_percentage", "limit_mib", "spike_limit_mib"}, map[]))
    else if kind == "filter" then
      Some(Record({"error_mode"}, map["logs" := Record({}, map["log_record" := LIST]),
                                      "traces" := Record({}, map["span" := LIST, "spanevent" := LIST]),
                                      "metrics" := Record({}, map["metric" := LIST, "datapoint" := LIST])]))
    else if kind == "transform" then
      Some(Record({"error_mode"}, map["log_statements" := LIST, "trace_statements" := LIST, "metric_statements" := LIST]))
    else if kind == "attributes" then
      Some(Record({}, map["actions" := ListOf(Record({"key", "action", "value", "from_attribute", "pattern", "converted_type"}, map[]))]))
    else if kind == "resource" then
      Some(Record({}, map["attributes" := ListOf(Record({"key", "action", "value", "from_attribute", "pattern"}, map[]))]))
    else None
  }

  function ExporterSchema(kind: string): Option<Schema> {
    if kind == "otlp" || kind == "otlphttp" then Some(OTLP)
    else if kind == "debug" then Some(Record({"verbosity", "sampling_initial", "sampling_thereafter"}, map[]))
    else if kind == "clickhouse" then
      Some(Record({"endpoint", "database", "username", "logs_table_name", "traces_table_name", "metrics_table_name", "ttl", "timeout"},
                  map["password" := PASSWORD, "sending_queue" := QUEUE, "retry_on_failure" := RETRY]))
    else if kind == "prometheusremotewrite" then
      Some(Record({"endpoint", "timeout"},
                  map["tls" := TLS, "headers" := HEADERS, "external_labels" := LABELS,
                      "remote_write_queue" := Record({"enabled", "queue_size", "num_consumers"}, map[]),
                      "resource_to_telemetry_conversion" := RETRY]))
    else if kind == "file" then
      Some(Record({"path", "format", "flush_interval"}, map["rotation" := Record({"max_megabytes", "max_days", "max_backups"}, map[])]))
    else None
  }

  // ---------------------------------------------------------------------
  // Where the secrets are

  predicate HasPassword(kind: string) {
    kind == "clickhouse"
  }

  predicate HasHeaders(kind: string) {
    kind == "otlp" || kind == "otlphttp" || kind == "prometheusremotewrite"
  }

  lemma RecordClean(leaves: set<string>, others: map<string, Schema>)
    requires forall k <- others :: Clean(others[k])
    ensures Clean(Record(leaves, others))
  {
    var s := Record(leaves, others);
    assert Clean(LEAF);
    forall k <- s.props ensures Clean(s.props[k]) {
      assert k in others ==> s.props[k] == others[k];
      assert k !in others ==> s.props[k] == LEAF;
    }
  }

  lemma ListClean(s: Schema)
    requires Clean(s)
    ensures Clean(ListOf(s)) && Clean(LEAF) && Clean(LIST) && Clean(LABELS)
  {
    assert Clean(LEAF);
  }

  lemma ProcessorsClean(kind: string)
    requires ProcessorSchema(kind).Some?
    ensures Clean(ProcessorSchema(kind).value)
  {
    hide Record, Clean;
    RecordClean({}, map[]);
    ListClean(Record({}, map[]));
    if kind == "filter" {
      RecordClean({}, map["log_record" := LIST]);
      RecordClean({}, map["span" := LIST, "spanevent" := LIST]);
      RecordClean({}, map["metric" := LIST, "datapoint" := LIST]);
      RecordClean({"error_mode"}, map["logs" := Record({}, map["log_record" := LIST]),
                                      "traces" := Record({}, map["span" := LIST, "spanevent" := LIST]),
                                      "metrics" := Record({}, map["metric" := LIST, "datapoint" := LIST])]);
    } else if kind == "transform" {
      RecordClean({"error_mode"}, map["log_statements" := LIST, "trace_statements" := LIST, "metric_statements" := LIST]);
    } else if kind == "attributes" {
      var action := Record({"key", "action", "value", "from_attribute", "pattern", "converted_type"}, map[]);
      RecordClean({"key", "action", "value", "from_attribute", "pattern", "converted_type"}, map[]);
      ListClean(action);
      RecordClean({}, map["actions" := ListOf(action)]);
    } else if kind == "resource" {
      var action := Record({"key", "action", "value", "from_attribute", "pattern"}, map[]);
      RecordClean({"key", "action", "value", "from_attribute", "pattern"}, map[]);
      ListClean(action);
      RecordClean({}, map["attributes" := ListOf(action)]);
    } else if kind == "batch" {
      RecordClean({"timeout", "send_batch_size", "send_batch_max_size"}, map[]);
    } else {
      RecordClean({"check_interval", "limit_percentage", "spike_limit_percentage", "limit_mib", "spike_limit_mib"}, map[]);
    }
  }

  /** A record whose only fields that may hold secrets are `password` and `headers`. */
  ghost predicate Shaped(s: Schema, password: bool, headers: bool) {
    && !s.secret && s.rest.None? && s.items.None?
    && (password <==> "password" in s.props) && (password ==> s.props["password"] == PASSWORD)
    && (headers <==> "headers" in s.props) && (headers ==> s.props["headers"] == HEADERS)
    && forall k <- s.props :: k != "password" && k != "headers" ==> Clean(s.props[k])
  }

  lemma RecordShaped(leaves: set<string>, others: map<string, Schema>)
    requires "password" !in leaves && "headers" !in leaves
    requires "password" in others ==> others["password"] == PASSWORD
    requires "headers" in others ==> others["headers"] == HEADERS
    requires forall k <- others :: k != "password" && k != "headers" ==> Clean(others[k])
    ensures Shaped(Record(leaves, others), "password" in others, "headers" in others)
  {
    var s := Record(leaves, others);
    assert Clean(LEAF);
    forall k <- s.props ensures (k in others && s.props[k] == others[k]) || s.props[k] == LEAF {
    }
  }

  lemma SmallRecordsClean()
    ensures Clean(TLS) && Clean(QUEUE) && Clean(RETRY) && Clean(LABELS) && Clean(LEAF)
  {
    hide Record, Clean;
    RecordClean({"insecure", "insecure_skip_verify"}, map[]);
    RecordClean({"enabled", "queue_size"}, map[]);
    RecordClean({"enabled"}, map[]);
    ListClean(TLS);
  }

  lemma OtlpShaped()
    ensures Shaped(OTLP, false, true)
  {
    hide Record, Clean, Shaped;
    SmallRecordsClean();
    RecordShaped({"endpoint", "compression", "timeout"},
                 map["tls" := TLS, "headers" := HEADERS, "sending_queue" := QUEUE, "retry_on_failure" := RETRY]);
  }

  lemma ClickhouseShaped()
    ensures ExporterSchema("clickhouse").Some? && Shaped(ExporterSchema("clickhouse").value, true, false)
  {
    hide Record, Clean, Shaped;
    SmallRecordsClean();
    RecordShaped({"endpoint", "database", "username", "logs_table_name", "traces_table_name", "metrics_table_name", "ttl", "timeout"},
                 map["password" := PASSWORD, "sending_queue" := QUEUE, "retry_on_failure" := RETRY]);
  }

  lemma PrometheusShaped()
    ensures ExporterSchema("prometheusremotewrite").Some? && Shaped(ExporterSchema("prometheusremotewrite").value, false, true)
  {
    hide Record, Clean, Shaped;
    SmallRecordsClean();
    RecordClean({"enabled", "queue_size", "num_consumers"}, map[]);
    RecordShaped({"endpoint", "timeout"},
                 map["tls" := TLS, "headers" := HEADERS, "external_labels" := LABELS,
                     "remote_write_queue" := Record({"enabled", "queue_size", "num_consumers"}, map[]),
                     "resource_to_telemetry_conversion" := RETRY]);
  }

  lemma ExporterShaped(kind: string)
    requires ExporterSchema(kind).Some?
    ensures Shaped(ExporterSchema(kind).value, HasPassword(kind), HasHeaders(kind))
  {
    hide Record, Clean, Shaped;
    OtlpShaped();
    ClickhouseShaped();
    PrometheusShaped();
    if kind == "debug" {
      RecordShaped({"verbosity", "sampling_initial", "sampling_thereafter"}, map[]);
    } else if kind == "file" {
      RecordClean({"max_megabytes", "max_days", "max_backups"}, map[]);
      RecordShaped({"path", "format", "flush_interval"}, map["rotation" := Record({"max_megabytes", "max_days", "max_backups"}, map[])]);
    }
  }

  /** A secret field of an exporter config. */
  datatype Field = Password | Header(name: string)

  function FieldPath(base: string, f: Field): string {
    match f
    case Password => base + ".password"
    case Header(name) => base + ".headers." + name
  }

  /** The field's value in a config, if the catalog makes it a secret of this kind of exporter. */
  function FieldAt(kind: string, config: Value, f: Field): Option<Value> {
    if !config.Obj? then None else
    match f
    case Password => if HasPassword(kind) && "password" in config.fields then Some(config.fields["password"]) else None
    case Header(name) =>
      if HasHeaders(kind) && "headers" in config.fields && config.fields["headers"].Obj? && name in config.fields["headers"].fields
      then Some(config.fields["headers"].fields[name]) else None
  }

  lemma HeaderSecrets(v: Value, path: string, e: (string, Value))
    ensures e in SecretsIn(v, Some(HEADERS), path) <==> v.Obj? && exists name <- v.fields :: e == (path + "." + name, v.fields[name])
  {
    if v.Obj? {
      InObject(v, HEADERS, path, e);
      forall name <- v.fields ensures SecretsIn(v.fields[name], Sub(HEADERS, name), KeyPath(path, name)) ==
             {(path + "." + name, v.fields[name])} {
      }
    }
  }

  ghost predicate IsField(kind: string, config: Value, base: string, f: Field, e: (string, Value)) {
    FieldAt(kind, config, f) == Some(e.1) && e.0 == FieldPath(base, f)
  }

  lemma ChildSecret(kind: string, config: Value, s: Schema, base: string, e: (string, Value), k: string)
    requires config.Obj? && k in config.fields && Shaped(s, HasPassword(kind), HasHeaders(kind))
    ensures e in SecretsIn(config.fields[k], Sub(s, k), KeyPath(base, k)) <==>
            || (k == "password" && IsField(kind, config, base, Password, e))
            || (k == "headers" && exists name :: IsField(kind, config, base, Header(name), e))
  {
    hide Clean;
    var v := config.fields[k];
    if k == "password" {
      assert KeyPath(base, k) == base + "." + "password" == base + ".password";
      if HasPassword(kind) {
        assert Sub(s, k) == Some(PASSWORD);
        assert SecretsIn(v, Sub(s, k), KeyPath(base, k)) == {(base + ".password", v)};
      }
    } else if k == "headers" {
      if HasHeaders(kind) {
        HeaderSecrets(v, base + ".headers", e);
        assert KeyPath(base, k) == base + "." + "headers" == base + ".headers";
        if v.Obj? {
          forall name <- v.fields ensures (base + ".headers") + "." + name == FieldPath(base, Header(name)) {
            assert ".headers" + "." == ".headers.";
          }
          forall name <- v.fields ensures e == ((base + ".headers") + "." + name, v.fields[name]) <==>
                 IsField(kind, config, base, Header(name), e) {
          }
        }
      }
    } else if Sub(s, k).Some? {
      CleanNone(v, Sub(s, k).value, KeyPath(base, k));
    }
  }

  /** The secrets of an exporter config are exactly its password and header values. */
  lemma ExporterSecrets(kind: string, config: Value, base: string, e: (string, Value))
    ensures e in SecretsIn(config, ExporterSchema(kind), base) <==> exists f :: IsField(kind, config, base, f, e)
  {
    hide ExporterSchema, IsField, Shaped;
    KindsKnown(kind);
    if ExporterSchema(kind).None? {
      NoField(kind, config, base, e);
    } else {
      ExporterShaped(kind);
      var s := ExporterSchema(kind).value;
      ShapedOnly(s, kind);
      if !config.Obj? {
        NoField(kind, config, base, e);
      } else {
        InObject(config, s, base, e);
        FieldKeys(kind, config, base, e);
        forall k <- config.fields
          ensures e in SecretsIn(config.fields[k], Sub(s, k), KeyPath(base, k)) <==>
            || (k == "password" && IsField(kind, config, base, Password, e))
            || (k == "headers" && exists name :: IsField(kind, config, base, Header(name), e))
        {
          ChildSecret(kind, config, s, base, e, k);
        }
      }
    }
  }

  lemma KindsKnown(kind: string)
    ensures HasPassword(kind) || HasHeaders(kind) ==> ExporterSchema(kind).Some?
  {
  }

  lemma ShapedOnly(s: Schema, kind: string)
    requires Shaped(s, HasPassword(kind), HasHeaders(kind))
    ensures !s.secret && s.items.None?
  {
  }

  lemma NoField(kind: string, config: Value, base: string, e: (string, Value))
    requires !config.Obj? || (!HasPassword(kind) && !HasHeaders(kind))
    ensures forall f :: !IsField(kind, config, base, f, e)
  {
  }

  lemma FieldKeys(kind: string, config: Value, base: string, e: (string, Value))
    requires config.Obj?
    ensures IsField(kind, config, base, Password, e) ==> "password" in config.fields
    ensures forall name :: IsField(kind, config, base, Header(name), e) ==> "headers" in config.fields
    ensures (exists f :: IsField(kind, config, base, f, e)) <==>
            IsField(kind, config, base, Password, e) || exists name :: IsField(kind, config, base, Header(name), e)
  {
    forall f ensures f == Password || f == Header(f.name) {
    }
  }

  // ---------------------------------------------------------------------
  // Graphs

  function Base(section: string, i: nat): string {
    section + "[" + Text.Itoa(i) + "].config"
  }

  /** The printed path of an exporter's secret field. */
  function PathOf(i: nat, f: Field): string {
    FieldPath(Base("exporters", i), f)
  }

  lemma BaseSplit(i: nat, x: string)
    ensures Base("exporters", i) + x == "exporters[" + (Text.Itoa(i) + ("]" + (".config" + x))) && ']' !in Text.Itoa(i)
  {
    Text.ItoaDigits(i);
  }

  lemma BaseInjective(i: nat, a: string, j: nat, b: string)
    requires Base("exporters", i) + a == Base("exporters", j) + b
    ensures i == j && a == b
  {
    hide Base, Text.Itoa, Text.IsDigit;
    BaseSplit(i, a);
    BaseSplit(j, b);
    var n := |"exporters["|;
    assert (Base("exporters", i) + a)[n..] == Text.Itoa(i) + "]" + (".config" + a);
    assert (Base("exporters", j) + b)[n..] == Text.Itoa(j) + "]" + (".config" + b);
    Text.SplitFirst(']', Text.Itoa(i), ".config" + a, Text.Itoa(j), ".config" + b);
    Text.ItoaValue(i);
    Text.ItoaValue(j);
    assert a == (".config" + a)[7..] && b == (".config" + b)[7..];
  }

  function FieldSuffix(f: Field): string {
    match f
    case Password => ".password"
    case Header(name) => ".headers." + name
  }

  lemma SuffixInjective(f: Field, h: Field)
    requires FieldSuffix(f) == FieldSuffix(h)
    ensures f == h
  {
    var n := |".headers."|;
    if f.Header? {
      assert FieldSuffix(f)[n..] == f.name && FieldSuffix(f)[1] == 'h';
    }
    if h.Header? {
      assert FieldSuffix(h)[n..] == h.name && FieldSuffix(h)[1] == 'h';
    }
  }

  /** Printed paths identify the exporter and the field, whatever the header is called. */
  lemma PathInjective(i: nat, f: Field, j: nat, h: Field)
    requires PathOf(i, f) == PathOf(j, h)
    ensures i == j && f == h
  {
    hide Base;
    assert PathOf(i, f) == Base("exporters", i) + FieldSuffix(f) && PathOf(j, h) == Base("exporters", j) + FieldSuffix(h);
    BaseInjective(i, FieldSuffix(f), j, FieldSuffix(h));
    SuffixInjective(f, h);
  }

  /** The secret at a field of the graph's i-th exporter. */
  function SecretAt(g: Graph, i: nat, f: Field): Option<Value> {
    if i < |g.exporters| then FieldAt(g.exporters[i].kind, g.exporters[i].config, f) else None
  }
}
