/** The deployment start-up step: the runtime configuration written to config.js and
    the `<script>` tag injected into index.html. `JSON.stringify` is a parameter; the
    server process it then starts is not modelled. */
module RailwayStart {
  import opened Wrappers
  import opened Text

  type Env = map<string, string>

  datatype Config = Config(supabaseUrl: Option<string>, supabaseAnonKey: Option<string>,
                           appName: string, appUrl: Option<string>)

  const DefaultAppName: string := "Health Dashboard"

  function Lookup(env: Env, name: string): Option<string> {
    if name in env then Some(env[name]) else None
  }

  /** The config object: the variables as they are, the app name defaulting when it
      is unset or empty. */
  function ConfigOf(env: Env): (c: Config)
    ensures c.supabaseUrl == Lookup(env, "VITE_SUPABASE_URL")
    ensures c.supabaseAnonKey == Lookup(env, "VITE_SUPABASE_ANON_KEY")
    ensures c.appUrl == Lookup(env, "VITE_APP_URL")
    ensures Lookup(env, "VITE_APP_NAME").Some? && env["VITE_APP_NAME"] != "" ==> c.appName == env["VITE_APP_NAME"]
    ensures Lookup(env, "VITE_APP_NAME").None? || env["VITE_APP_NAME"] == "" ==> c.appName == DefaultAppName
    ensures c.appName != ""
  {
    Config(Lookup(env, "VITE_SUPABASE_URL"), Lookup(env, "VITE_SUPABASE_ANON_KEY"),
           MessageOr(Lookup(env, "VITE_APP_NAME").GetOr(""), DefaultAppName), Lookup(env, "VITE_APP_URL"))
  }

  /** The text of config.js. */
  function ConfigJs(config: Config, stringify: Config -> string): (js: string)
    ensures js == "window.__ENV__ = " + stringify(config) + ";"
  {
    "window.__ENV__ = " + stringify(config) + ";"
  }

  const ScriptPath: string := "/config.js"
  const HeadClose: string := "</head>"
  const Injected: string := "  <script src=\"" + ScriptPath + "\"></script>\n  " + HeadClose

  /** The injection: when the page does not mention /config.js, the first </head>
      becomes the script tag followed by </head>. */
  function Inject(html: string): string {
    if Contains(html, ScriptPath) then html else ReplaceFirst(html, HeadClose, Injected)
  }

  /** The injected tag loads the script. */
  lemma InjectedHasScript()
    ensures Contains(Injected, ScriptPath)
  {
    var before, after := "  <script src=\"", "\"></script>\n  " + HeadClose;
    assert Injected == before + ScriptPath + after;
    ContainsItself(ScriptPath);
    ContainsInside(before, ScriptPath, after, ScriptPath);
  }

  /** The injection replaces only the first </head>; a page without one, or one that
      already loads the script, is unchanged. */
  lemma InjectSpec(html: string)
    ensures Contains(html, ScriptPath) || !Contains(html, HeadClose) ==> Inject(html) == html
    ensures !Contains(html, ScriptPath) && Contains(html, HeadClose) ==>
      var j := FindFirst(html, HeadClose).value;
      Inject(html) == html[..j] + Injected + html[j + |HeadClose|..] && Contains(Inject(html), ScriptPath)
  {
    if !Contains(html, ScriptPath) && Contains(html, HeadClose) {
      InjectedHasScript();
      ReplacementIsContained(html, HeadClose, Injected, ScriptPath);
    }
  }

  /** Injecting twice gives the same page as injecting once. */
  lemma InjectIdempotent(html: string)
    ensures Inject(Inject(html)) == Inject(html)
  {
    InjectSpec(html);
    if !Contains(html, ScriptPath) && Contains(html, HeadClose) {
      InjectSpec(Inject(html));
    }
  }

  /** The files the script works on. */
  class Deployment {
    var files: map<string, string>
    /** The file names written, in order. */
    ghost var writes: seq<string>

    constructor(files0: map<string, string>)
      ensures files == files0 && writes == []
    {
      files := files0;
      writes := [];
    }

    /** Writes config.js, then rewrites index.html only when the injection branch is
        taken; reading a missing index.html throws ("ENOENT"). */
    method Startup(env: Env, stringify: Config -> string) returns (r: Outcome)
      modifies this
      ensures "config.js" in files && files["config.js"] == ConfigJs(ConfigOf(env), stringify)
      ensures "index.html" !in old(files) ==>
        r.Failed? && files == old(files)["config.js" := ConfigJs(ConfigOf(env), stringify)]
        && writes == old(writes) + ["config.js"]
      ensures "index.html" in old(files) ==>
        var html := old(files)["index.html"];
        && r == Succeeded
        && (Contains(html, ScriptPath) ==>
              files == old(files)["config.js" := ConfigJs(ConfigOf(env), stringify)]
              && writes == old(writes) + ["config.js"])
        && (!Contains(html, ScriptPath) ==>
              files == old(files)["config.js" := ConfigJs(ConfigOf(env), stringify)]["index.html" := Inject(html)]
              && writes == old(writes) + ["config.js", "index.html"])
    {
      var config := ConfigOf(env);
      files := files["config.js" := ConfigJs(config, stringify)];
      writes := writes + ["config.js"];
      if "index.html" !in files {
        return Failed("ENOENT");
      }
      var html := files["index.html"];
      if !Contains(html, ScriptPath) {
        html := ReplaceFirst(html, HeadClose, Injected);
        files := files["index.html" := html];
        writes := writes + ["index.html"];
      }
      r := Succeeded;
    }
  }

  /** After a start-up, the page loads the script whenever it has a </head>, and a
      second start-up leaves index.html as the first one left it. */
  lemma StartupTwiceKeepsPage(html: string)
    requires Contains(html, HeadClose)
    ensures Contains(Inject(html), ScriptPath)
    ensures Inject(Inject(html)) == Inject(html)
  {
    InjectSpec(html);
    InjectIdempotent(html);
  }
}
