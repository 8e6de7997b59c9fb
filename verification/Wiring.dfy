/** The objects of one instance refer to each other by name, address and secret.
    Different reconcilers write the two ends; this is why they meet. */
module Wiring {
  import opened Wrappers
  import opened GrafooApi
  import opened Cluster
  import opened Naming
  import Dex
  import MariaDb
  import GrafanaCr

  /** Dex accepts the login that Grafana offers: when both worked from the same
      routes and the same client secret as stored, issuer, redirect and secret agree. */
  lemma LoginMatches(inst: Instance, routes: Dex.Routes, sha: Dex.ConfigDigest, read: Option<Object>,
                     refresh: Option<string>, uuid: string, db: Option<Object>, found: seq<GrafanaCr.LoggingRole>,
                     op: Op, op': Op)
    requires op in Dex.DexPlan(inst, routes, sha, read, refresh, uuid).ops && op.ref == Dex.ConfigRef(inst)
    requires op' in GrafanaCr.GrafanaPlan(inst, routes, read, db, found).ops && op'.ref == GrafanaCr.GrafanaRef(inst)
    ensures op.Upsert? && op.patch.body.Some? && op.patch.body.value.ConfigSecret?
    ensures op'.Upsert? && op'.patch.body.Some? && op'.patch.body.value.GrafanaSpec?
    ensures var config, spec := op.patch.body.value.config, op'.patch.body.value;
      config.dexUri == spec.dexUri && config.grafanaUri == spec.rootUrl && config.clientSecret == spec.clientSecret
  {
    GrafanaCr.PlannedOps(inst, routes, read, db, found, op');
    ConfigOpOf(inst, routes, sha, read, refresh, uuid, op);
  }

  lemma ConfigOpOf(inst: Instance, routes: Dex.Routes, sha: Dex.ConfigDigest, read: Option<Object>,
                   refresh: Option<string>, uuid: string, op: Op)
    requires op in Dex.DexPlan(inst, routes, sha, read, refresh, uuid).ops && op.ref == Dex.ConfigRef(inst)
    ensures refresh.Some? && Dex.ClientSecretValue(read).Ok?
    ensures op == Dex.ConfigOp(inst, sha, Dex.ConfigFor(inst, routes, refresh.value, Dex.ClientSecretValue(read).value))
  {
    hide LabelsFor;
    assert |"dex-token"| == 9 && |"dex-client-secret"| == 17 && |"dex"| == 3;
    assert |Dex.ConfigRef(inst).name| == |inst.name| + 4;
    assert |Dex.ClientSecretRef(inst).name| == |inst.name| + 18;
    assert |Dex.TokenSecretOp(inst).ref.name| == |inst.name| + 10;
  }

  /** Grafana reaches the database: its URL carries the generated credentials and the
      name and port of the service that the MariaDB reconciler creates. */
  lemma DatabaseMatches(inst: Instance, password: string, rootPassword: string)
    requires inst.spec.mariadb.Some? && inst.spec.mariadb.value.enabled
    ensures var secret := MariaDb.SecretOp(inst, password, rootPassword).want;
      var service := MariaDb.ServiceOp(inst);
      && GrafanaCr.DatabaseConfig(inst, Some(secret)) ==
           Ok(map["type" := "mysql", "url" := "mysql://grafana:" + password + "@" + service.ref.name + ":3306/grafana"])
      && service.patch.body.value.ports == [3306]
  {
    var data := MariaDb.Credentials(password, rootPassword);
    assert "database-user" in data && data["database-user"] == "grafana";
    assert "database-name" in data && data["database-name"] == "grafana";
    assert "database-password" in data && data["database-password"] == password by {
      assert "database-password" != "database-root-password" && "database-password" != "database-user";
    }
    var name := ComponentName(inst.name, "mariadb");
    assert "mysql://" + "grafana" == "mysql://grafana";
    assert "mysql://" + "grafana" + ":" == "mysql://grafana:";
    assert ":3306/" + "grafana" == ":3306/grafana";
    var url := "mysql://" + "grafana" + ":" + password + "@" + name + ":3306/" + "grafana";
    assert url == "mysql://grafana:" + password + "@" + name + ":3306/grafana";
  }

  /** The ingress, the service, the deployment and the service account of Dex name each other. */
  lemma DexReferences(inst: Instance, routes: Dex.Routes, checksum: string)
    ensures var ingress, service := Dex.IngressOp(inst, routes), Dex.ServiceOp(inst);
      var deployment, account := Dex.DeploymentOp(inst, checksum).patch.body.value, Dex.AccountOp(inst, routes);
      && ingress.patch.body.value.backend == service.ref.name
      && ingress.patch.body.value.port in service.patch.body.value.ports
      && deployment.serviceAccount == account.ref.name
      && deployment.mounts == Dex.ConfigRef(inst).name
      && Dex.TokenSecretOp(inst).initial.annotations[Dex.ACCOUNT_ANNOTATION] == account.ref.name
  {
    assert Dex.HTTP_PORT in [Dex.HTTP_PORT, Dex.GRPC_PORT, Dex.METRICS_PORT];
  }
}
